// The directory: which file holds which range of keys.
module Metas {
  import opened Keys

  type Name = seq<Byte>

  /** The file `name` holds the keys up to `end` that no earlier file holds. */
  datatype MetaNode = MetaNode(end: Key, name: Name, count: nat, lsn: nat)

  // ---- the directory as a value ----------------------------------------------------

  /** The middle of a search range. */
  function Mid(left: nat, right: nat): (i: nat)
    requires left < right
    ensures left <= i < right
  {
    (right - left) / 2 + left
  }

  /** The binary search, step by step; it never assumes that the directory is sorted. */
  function SearchIn(dir: seq<MetaNode>, key: Key, left: nat, right: nat): (i: nat)
    requires left <= right <= |dir|
    ensures left <= i <= right
    decreases right - left
  {
    if left == right then left else
      var i := Mid(left, right);
      var cmp := Strcmp(key, dir[i].end);
      if cmp == 0 then i else if cmp < 0 then SearchIn(dir, key, left, i) else SearchIn(dir, key, i + 1, right)
  }

  /** The position of the file that takes `key`, or |dir| when none does. */
  function Search(dir: seq<MetaNode>, key: Key): (i: nat)
    ensures i <= |dir|
  {
    SearchIn(dir, key, 0, |dir|)
  }

  /** The search comes upon a node that ends there. */
  predicate EndIsThere(dir: seq<MetaNode>, end: Key) {
    var i := Search(dir, end);
    i < |dir| && dir[i].end == end
  }

  /** A node whose end is already in the directory is dropped; any other gets the next lsn. */
  function WithNode(dir: seq<MetaNode>, node: MetaNode): seq<MetaNode> {
    var i := Search(dir, node.end);
    if EndIsThere(dir, node.end) then dir else dir[..i] + [node.(lsn := |dir| + 1)] + dir[i..]
  }

  /** Move the end of the first node that has this name. */
  function SetEnd(dir: seq<MetaNode>, name: Name, end: Key): (d: seq<MetaNode>)
    ensures |d| == |dir|
  {
    if dir == [] then []
    else if dir[0].name == name then [dir[0].(end := end)] + dir[1..]
    else [dir[0]] + SetEnd(dir[1..], name, end)
  }

  ghost predicate EndsRise(dir: seq<MetaNode>) {
    forall i, j :: 0 <= i < j < |dir| ==> Lt(dir[i].end, dir[j].end)
  }

  /** On a sorted directory the binary search finds the first file whose end is not below the key. */
  lemma {:induction false} SearchInFinds(dir: seq<MetaNode>, key: Key, left: nat, right: nat)
    requires EndsRise(dir) && left <= right <= |dir|
    requires forall j :: 0 <= j < left ==> Lt(dir[j].end, key)
    requires forall j :: right <= j < |dir| ==> Lt(key, dir[j].end)
    ensures var i := SearchIn(dir, key, left, right);
            && (forall j :: 0 <= j < i ==> Lt(dir[j].end, key))
            && (i < |dir| ==> Le(key, dir[i].end))
            && (forall j :: i < j < |dir| ==> Lt(key, dir[j].end))
    decreases right - left
  {
    hide Lt;
    hide Mid;
    if left < right {
      LtIsStrictTotalOrder();
      var i := Mid(left, right);
      var cmp := Strcmp(key, dir[i].end);
      if cmp < 0 {
        SearchInFinds(dir, key, left, i);
      } else if cmp > 0 {
        SearchInFinds(dir, key, i + 1, right);
      }
    }
  }

  lemma {:induction false} SearchFinds(dir: seq<MetaNode>, key: Key)
    requires EndsRise(dir)
    ensures var i := Search(dir, key);
            && (forall j :: 0 <= j < i ==> Lt(dir[j].end, key))
            && (i < |dir| ==> Le(key, dir[i].end))
            && (forall j :: i < j < |dir| ==> Lt(key, dir[j].end))
  {
    SearchInFinds(dir, key, 0, |dir|);
  }

  /** The position a sorted directory gives a key is the only one with its neighbours' ends around the key. */
  lemma {:induction false} SearchIs(dir: seq<MetaNode>, key: Key, i: nat)
    requires EndsRise(dir) && i <= |dir|
    requires i > 0 ==> Lt(dir[i - 1].end, key)
    requires i < |dir| ==> Le(key, dir[i].end)
    ensures Search(dir, key) == i
  {
    hide Lt;
    LtIsStrictTotalOrder();
    assert forall j :: 0 <= j < i ==> Lt(dir[j].end, key);
    assert forall j :: i < j < |dir| ==> Lt(dir[i].end, dir[j].end);
    SearchFinds(dir, key);
  }

  /** When every end is below the key, no order is needed to see that no file takes it. */
  lemma {:induction false} SearchPastAll(dir: seq<MetaNode>, key: Key, left: nat)
    requires left <= |dir|
    requires forall j :: 0 <= j < |dir| ==> Lt(dir[j].end, key)
    ensures SearchIn(dir, key, left, |dir|) == |dir|
    decreases |dir| - left
  {
    hide Lt;
    if left < |dir| {
      var i := Mid(left, |dir|);
      LtAsymmetric(dir[i].end, key);
      SearchPastAll(dir, key, i + 1);
    }
  }

  lemma {:induction false} SetEndAt(dir: seq<MetaNode>, i: nat, end: Key)
    requires i < |dir|
    requires forall j :: 0 <= j < i ==> dir[j].name != dir[i].name
    ensures SetEnd(dir, dir[i].name, end) == dir[i := dir[i].(end := end)]
  {
    if i > 0 {
      SetEndAt(dir[1..], i - 1, end);
    }
  }

  lemma {:induction false} SetEndMissing(dir: seq<MetaNode>, name: Name, end: Key)
    requires forall j :: 0 <= j < |dir| ==> dir[j].name != name
    ensures SetEnd(dir, name, end) == dir
  {
    if dir != [] {
      SetEndMissing(dir[1..], name, end);
    }
  }

  // ---- the directory in place ---------------------------------------------------------

  class Meta {
    var size: nat
    const nodes: array<MetaNode>

    ghost predicate Valid()
      reads this
    {
      size <= nodes.Length
    }

    ghost function Dir(): (d: seq<MetaNode>)
      requires Valid()
      reads this, nodes
      ensures |d| == size
    {
      nodes[..size]
    }

    constructor (max: nat)
      ensures Valid() && Dir() == [] && fresh(nodes) && nodes.Length == max
    {
      size := 0;
      nodes := new MetaNode[max](_ => MetaNode([], [], 0, 0));
    }

    /** Index of the node that takes the key; `size` stands for the NULL of the source. */
    method Get(key: Key) returns (i: nat)
      requires Valid()
      ensures i == Search(Dir(), key)
    {
      hide Lt;
      hide Strcmp;
      hide Mid;
      var left, right := 0, size;
      while left < right
        invariant left <= right <= size
        invariant SearchIn(Dir(), key, left, right) == Search(Dir(), key)
      {
        i := Mid(left, right);
        var cmp := Strcmp(key, nodes[i].end);
        if cmp == 0 {
          return;
        }
        if cmp < 0 {
          right := i;
        } else {
          left := i + 1;
        }
      }
      i := left;
    }

    /** The search of Set: where the end belongs, and whether it is there already. */
    method Slot(end: Key) returns (i: nat, found: bool)
      requires Valid()
      ensures i == Search(Dir(), end) <= size
      ensures found <==> EndIsThere(Dir(), end)
    {
      hide Lt;
      hide Strcmp;
      hide Mid;
      var left, right := 0, size;
      while left < right
        invariant left <= right <= size
        invariant SearchIn(Dir(), end, left, right) == Search(Dir(), end)
        invariant right < size ==> end != nodes[right].end
      {
        i := Mid(left, right);
        var cmp := Strcmp(end, nodes[i].end);
        if cmp == 0 {
          return i, true;
        }
        if cmp < 0 {
          right := i;
        } else {
          left := i + 1;
        }
      }
      return left, false;
    }

    /** Insert in end order, shifting the nodes behind; the shift also moves one slot past the last node. */
    method Set(node: MetaNode)
      requires Valid() && (size + 1 < nodes.Length || EndIsThere(Dir(), node.end))
      modifies this`size, nodes
      ensures Valid()
      ensures Dir() == WithNode(old(Dir()), node)
    {
      var i, found := Slot(node.end);
      if !found {
        InsertAt(i, node);
      }
    }

    /** The memmove and memcpy of Set. */
    method InsertAt(i: nat, node: MetaNode)
      requires Valid() && i <= size && size + 1 < nodes.Length
      modifies this`size, nodes
      ensures Valid()
      ensures Dir() == old(Dir())[..i] + [node.(lsn := |old(Dir())| + 1)] + old(Dir())[i..]
    {
      size := size + 1;
      forall k | i <= k < size {
        nodes[k + 1] := nodes[k];
      }
      nodes[i] := node.(lsn := size);
      assert nodes[..i] == old(nodes[..i]);
      assert nodes[i + 1..size] == old(nodes[i..size]);
      assert nodes[..size] == nodes[..i] + [nodes[i]] + nodes[i + 1..size];
    }

    method SetByName(node: MetaNode)
      requires Valid()
      modifies nodes
      ensures Valid()
      ensures Dir() == SetEnd(old(Dir()), node.name, node.end)
    {
      for i := 0 to size
        invariant Dir() == old(Dir())
        invariant forall j :: 0 <= j < i ==> nodes[j].name != node.name
      {
        if nodes[i].name == node.name {
          SetEndAt(Dir(), i, node.end);
          nodes[i] := nodes[i].(end := node.end);
          return;
        }
      }
      SetEndMissing(Dir(), node.name, node.end);
    }
  }
}
