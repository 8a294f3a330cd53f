/** The inventory of a local store: a directory tree walked with an explicit stack. */
module Inventory {
  import opened Wrappers

  /** A directory entry; links, sockets and the like are passed over. */
  datatype Node = Regular(bytes: nat) | Directory(entries: seq<Entry>) | Special

  datatype Entry = Entry(name: string, node: Node)

  /** The files below `entries`, under the keys their paths spell. */
  function Listing(path: string, entries: seq<Entry>): set<(string, nat)>
    decreases entries
  {
    if entries == [] then {}
    else
      var key := path + "/" + entries[0].name;
      var here := match entries[0].node
        case Regular(bytes) => {(key, bytes)}
        case Directory(inner) => Listing(key, inner)
        case Special => {};
      here + Listing(path, entries[1..])
  }

  // ---- What a listing is ----

  /** Entry `i` is a file of this size under the one name, or a directory below which the other names lead to one. */
  predicate LeadsBy(entries: seq<Entry>, i: nat, names: seq<string>, bytes: nat)
    requires i < |entries| && names != []
    decreases |names|, 0
  {
    && entries[i].name == names[0]
    && if |names| == 1 then entries[i].node == Regular(bytes)
       else entries[i].node.Directory? && Leads(entries[i].node.entries, names[1..], bytes)
  }

  /** Going down these names, one directory after the other, ends at a file of this size. */
  predicate Leads(entries: seq<Entry>, names: seq<string>, bytes: nat)
    decreases |names|, 1
  {
    names != [] && exists i | 0 <= i < |entries| :: LeadsBy(entries, i, names, bytes)
  }

  /** The key of the file there: the path and the names, with a slash before each. */
  function Spelled(path: string, names: seq<string>): string
    decreases |names|
  {
    if names == [] then path else Spelled(path + "/" + names[0], names[1..])
  }

  /** A file of this size lies below the entries, and the names on the way spell the key. */
  ghost predicate LiesAt(path: string, entries: seq<Entry>, key: string, bytes: nat) {
    exists names :: Leads(entries, names, bytes) && key == Spelled(path, names)
  }

  lemma LeadsOn(entries: seq<Entry>, names: seq<string>, bytes: nat)
    requires entries != [] && Leads(entries[1..], names, bytes)
    ensures Leads(entries, names, bytes)
  {
    var i :| 0 <= i < |entries| - 1 && LeadsBy(entries[1..], i, names, bytes);
    assert LeadsBy(entries, i + 1, names, bytes);
  }

  lemma LeadsDown(entries: seq<Entry>, names: seq<string>, bytes: nat)
    requires entries != [] && entries[0].node.Directory? && Leads(entries[0].node.entries, names, bytes)
    ensures Leads(entries, [entries[0].name] + names, bytes)
  {
    assert ([entries[0].name] + names)[1..] == names;
    assert LeadsBy(entries, 0, [entries[0].name] + names, bytes);
  }

  /** Whatever is listed lies at the end of some names, which spell its key. */
  lemma {:induction false} ListedIsThere(path: string, entries: seq<Entry>, key: string, bytes: nat)
    returns (names: seq<string>)
    requires (key, bytes) in Listing(path, entries)
    ensures Leads(entries, names, bytes) && key == Spelled(path, names)
    decreases entries
  {
    var here := path + "/" + entries[0].name;
    if (key, bytes) in Listing(path, entries[1..]) {
      names := ListedIsThere(path, entries[1..], key, bytes);
      LeadsOn(entries, names, bytes);
    } else if entries[0].node.Directory? {
      names := ListedIsThere(here, entries[0].node.entries, key, bytes);
      LeadsDown(entries, names, bytes);
      names := [entries[0].name] + names;
      assert names[1..] + [] == names[1..];
    } else {
      names := [entries[0].name];
      assert LeadsBy(entries, 0, names, bytes);
      assert names[1..] == [];
    }
  }

  /** And every file that is there is listed. */
  lemma {:induction false} ThereIsListed(path: string, entries: seq<Entry>, names: seq<string>, bytes: nat)
    requires Leads(entries, names, bytes)
    ensures (Spelled(path, names), bytes) in Listing(path, entries)
    decreases entries
  {
    var i :| 0 <= i < |entries| && LeadsBy(entries, i, names, bytes);
    if i > 0 {
      assert LeadsBy(entries[1..], i - 1, names, bytes);
      ThereIsListed(path, entries[1..], names, bytes);
    } else if |names| > 1 {
      ThereIsListed(path + "/" + names[0], entries[0].node.entries, names[1..], bytes);
    } else {
      assert names[1..] == [];
    }
  }

  /** What is still to be listed from a stack of directories. */
  function Pending(stack: seq<(string, seq<Entry>)>): set<(string, nat)> {
    if stack == [] then {}
    else Pending(stack[..|stack| - 1]) + Listing(stack[|stack| - 1].0, stack[|stack| - 1].1)
  }

  function Weight(entries: seq<Entry>): nat {
    if entries == [] then 1
    else (match entries[0].node case Directory(inner) => Weight(inner) case _ => 0) + Weight(entries[1..])
  }

  function StackWeight(stack: seq<(string, seq<Entry>)>): nat {
    if stack == [] then 0 else StackWeight(stack[..|stack| - 1]) + Weight(stack[|stack| - 1].1)
  }

  lemma PushPending(stack: seq<(string, seq<Entry>)>, path: string, entries: seq<Entry>)
    ensures Pending(stack + [(path, entries)]) == Pending(stack) + Listing(path, entries)
    ensures StackWeight(stack + [(path, entries)]) == StackWeight(stack) + Weight(entries)
  {
    assert (stack + [(path, entries)])[..|stack|] == stack;
  }

  lemma {:induction false} WeightPositive(entries: seq<Entry>)
    ensures Weight(entries) > 0
  {
    if entries != [] {
      WeightPositive(entries[1..]);
    }
  }

  /** `map` holds one of the listed sizes for every listed key, and nothing else. */
  predicate Agrees(inventory: map<string, nat>, listing: set<(string, nat)>) {
    && (forall p: (string, nat) | p in listing :: p.0 in inventory)
    && (forall k | k in inventory :: (k, inventory[k]) in listing)
  }

  /** Add the files of one directory; its subdirectories go onto the stack. */
  method ListDirectory(path: string, entries: seq<Entry>, stack: seq<(string, seq<Entry>)>, inventory: map<string, nat>,
                       ghost listed: set<(string, nat)>)
    returns (stack': seq<(string, seq<Entry>)>, inventory': map<string, nat>, ghost listed': set<(string, nat)>)
    requires Agrees(inventory, listed)
    ensures Agrees(inventory', listed')
    ensures listed' + Pending(stack') == listed + Pending(stack) + Listing(path, entries)
    ensures StackWeight(stack') < StackWeight(stack) + Weight(entries)
  {
    stack', inventory', listed' := stack, inventory, listed;
    assert entries[0..] == entries;
    WeightPositive(entries);
    for i := 0 to |entries|
      invariant Agrees(inventory', listed')
      invariant listed' + Pending(stack') + Listing(path, entries[i..])
                == listed + Pending(stack) + Listing(path, entries)
      invariant StackWeight(stack') + Weight(entries[i..]) == StackWeight(stack) + Weight(entries)
    {
      var entry := entries[i];
      assert entries[i..][1..] == entries[i + 1..];
      var key := path + "/" + entry.name;
      match entry.node
      case Regular(bytes) =>
        inventory', listed' := inventory'[key := bytes], listed' + {(key, bytes)};
      case Directory(inner) =>
        PushPending(stack', key, inner);
        stack' := stack' + [(key, inner)];
      case Special =>
    }
    WeightPositive(entries[|entries|..]);
  }

  /** The walk lists every file below the prefix, however deep, and nothing else; a missing prefix has none. */
  method LocalInventory(prefix: string, root: Option<seq<Entry>>) returns (inventory: map<string, nat>)
    ensures root.None? ==> inventory == map[]
    ensures root.Some? ==>
      forall k | k in inventory :: LiesAt(prefix, root.value, k, inventory[k])
    ensures root.Some? ==>
      forall names, bytes | Leads(root.value, names, bytes) :: Spelled(prefix, names) in inventory
  {
    inventory := map[];
    if root.None? {
      return;
    }
    var stack := [(prefix, root.value)];
    ghost var listed: set<(string, nat)> := {};
    PushPending([], prefix, root.value);
    assert [] + stack == stack;
    while stack != []
      invariant Agrees(inventory, listed)
      invariant listed + Pending(stack) == Listing(prefix, root.value)
      decreases StackWeight(stack)
    {
      var (path, entries) := stack[|stack| - 1];
      var rest := stack[..|stack| - 1];
      stack, inventory, listed := ListDirectory(path, entries, rest, inventory, listed);
    }
    forall k | k in inventory
      ensures LiesAt(prefix, root.value, k, inventory[k])
    {
      var names := ListedIsThere(prefix, root.value, k, inventory[k]);
    }
    forall names, bytes | Leads(root.value, names, bytes)
      ensures Spelled(prefix, names) in inventory
    {
      ThereIsListed(prefix, root.value, names, bytes);
    }
  }
}
