// Reopening: the directory and the filter are rebuilt from the files, in whatever order
// the operating system lists them.
module Reload {
  import opened Keys
  import opened Records
  import opened Merging
  import opened Images
  import opened Metas
  import opened Stores
  import opened StoreLaws
  import opened FlushLaws
  import opened MergeLaws
  import opened Hiraishins

  /** A file as the scan sees it, through its footer. */
  function FooterNode(files: map<Name, Image>, name: Name): MetaNode
    requires name in files
  {
    MetaNode(files[name].footer.key, name, files[name].footer.count, 0)
  }

  /** The scan of the listed files; a file without records is passed over. */
  function LoadDir(files: map<Name, Image>, order: seq<Name>): seq<MetaNode>
    requires forall n :: n in order ==> n in files
  {
    if order == [] then [] else
      var dir := LoadDir(files, order[..|order| - 1]);
      var name := order[|order| - 1];
      if files[name].footer.count == 0 then dir else WithNode(dir, FooterNode(files, name))
  }

  /** The bits that the scan sets: those of every key of every listed file. */
  function LoadBits(files: map<Name, Image>, order: seq<Name>, size: nat): set<nat>
    requires size > 0 && forall n :: n in order ==> n in files
  {
    if order == [] then {} else
      LoadBits(files, order[..|order| - 1], size) + BitsOf(ReadAll(files[order[|order| - 1]]), size)
  }

  function BitsOf(recs: seq<Rec>, size: nat): set<nat>
    requires size > 0
  {
    if recs == [] then {} else BitsOf(recs[..|recs| - 1], size) + Positions(recs[|recs| - 1].key, size)
  }

  /** The bits a merge of the replayed log sets: those of the keys it adds. */
  function AddedBits(list: seq<Rec>, size: nat): set<nat>
    requires size > 0
  {
    if list == [] then {} else
      var r := list[|list| - 1];
      AddedBits(list[..|list| - 1], size) + if r.opt == ADD then Positions(r.key, size) else {}
  }

  /** An order the directory scan may produce: every file, once. */
  ghost predicate Listing(st: Store, order: seq<Name>) {
    && (forall i, j :: 0 <= i < j < |order| ==> order[i] != order[j])
    && (forall n :: n in order <==> n in st.files)
  }

  // ---- which files the scan enters ------------------------------------------------------------

  /** A node of the scanned directory is the footer of a listed file that has records. */
  ghost predicate ComesFrom(files: map<Name, Image>, order: seq<Name>, d: MetaNode) {
    d.name in order && d.name in files && files[d.name].footer.count > 0 &&
    d == FooterNode(files, d.name).(lsn := d.lsn)
  }

  lemma {:induction false} WithNodeHas(dir: seq<MetaNode>, node: MetaNode, d: MetaNode)
    ensures d in WithNode(dir, node) ==> d in dir || d == node.(lsn := d.lsn)
    ensures d in dir ==> d in WithNode(dir, node)
    ensures exists e :: e in WithNode(dir, node) && e.end == node.end
  {
  }

  /** Some file of the directory ends at that key. */
  ghost predicate EndsIn(dir: seq<MetaNode>, end: Key) {
    exists d :: d in dir && d.end == end
  }

  lemma {:induction false} ScanComesFrom(files: map<Name, Image>, order: seq<Name>, d: MetaNode)
    requires (forall n :: n in order ==> n in files) && d in LoadDir(files, order)
    ensures ComesFrom(files, order, d)
  {
    hide WithNode;
    var init, name := order[..|order| - 1], order[|order| - 1];
    if d in LoadDir(files, init) {
      ScanComesFrom(files, init, d);
    } else {
      WithNodeHas(LoadDir(files, init), FooterNode(files, name), d);
    }
  }

  lemma {:induction false} ScanEnters(files: map<Name, Image>, order: seq<Name>, name: Name)
    requires (forall n :: n in order ==> n in files) && name in order && files[name].footer.count > 0
    ensures EndsIn(LoadDir(files, order), files[name].footer.key)
  {
    hide WithNode;
    var init, last := order[..|order| - 1], order[|order| - 1];
    var dir, node := LoadDir(files, init), FooterNode(files, last);
    assert order == init + [last];
    if name == last {
      WithNodeHas(dir, node, node);
    } else {
      ScanEnters(files, init, name);
      var d :| d in dir && d.end == files[name].footer.key;
      WithNodeHas(dir, node, d);
      assert d in LoadDir(files, order);
    }
  }

  /** The scan enters nothing but listed files with records, and leaves none of them out: each one's last key is
      an end of the directory, and no other key is. */
  lemma {:induction false} ScanEntersIff(files: map<Name, Image>, order: seq<Name>, end: Key)
    requires forall n :: n in order ==> n in files
    ensures forall d :: d in LoadDir(files, order) ==> ComesFrom(files, order, d)
    ensures EndsIn(LoadDir(files, order), end) <==>
              exists n :: n in order && files[n].footer.count > 0 && files[n].footer.key == end
  {
    hide LoadDir;
    forall d | d in LoadDir(files, order)
      ensures ComesFrom(files, order, d)
    {
      ScanComesFrom(files, order, d);
    }
    forall n | n in order && files[n].footer.count > 0
      ensures EndsIn(LoadDir(files, order), files[n].footer.key)
    {
      ScanEnters(files, order, n);
    }
  }

  // ---- the directory -----------------------------------------------------------------------

  /** The node of the running directory that the scan of a file must recreate. */
  ghost predicate Matches(st: Store, d: MetaNode, j: nat) {
    && j < |st.dir| && d.end == st.dir[j].end && d.name == st.dir[j].name
    && d.count == |FileRecs(st.files, st.dir[j])|
  }

  ghost predicate SomeMatch(st: Store, d: MetaNode) {
    exists j: nat :: Matches(st, d, j)
  }

  /** Partial result: sorted, numbered, and made of exactly the files seen so far. */
  ghost predicate Scanned(st: Store, seen: seq<Name>, d: seq<MetaNode>) {
    && EndsRise(d) && |d| == |seen| && LsnsOk(d)
    && (forall i :: 0 <= i < |d| ==> SomeMatch(st, d[i]))
    && (forall n :: n in NameSet(d) <==> n in seen)
  }

  lemma {:induction false} EveryFileHasANode(st: Store, name: Name)
    returns (j: nat)
    requires Inv(st) && name in st.files
    ensures Matches(st, FooterNode(st.files, name), j)
    ensures st.files[name].footer.count > 0
  {
    hide FileRecs;
    hide ReadAll;
    hide Within;
    hide Fit;
    hide Sorted;
    hide NamesOk;
    hide LsnsOk;
    assert name in NameSet(st.dir);
    j :| 0 <= j < |st.dir| && st.dir[j].name == name;
    assert FileOk(st, j);
    RecsAreCounted(st.files, st.dir[j]);
  }

  lemma {:induction false} RecsAreCounted(files: map<Name, Image>, n: MetaNode)
    requires n.name in files
    ensures |FileRecs(files, n)| == files[n.name].footer.count
  {
  }

  /** Two files never share an end, so the scan drops none. */
  lemma {:induction false} EndIsNew(st: Store, seen: seq<Name>, d: seq<MetaNode>, name: Name, j: nat, i: nat)
    requires Inv(st) && Scanned(st, seen, d) && name !in seen && name in st.files
    requires Matches(st, FooterNode(st.files, name), j) && i < |d|
    ensures d[i].end != FooterNode(st.files, name).end
  {
    hide Lt;
    hide FileRecs;
    hide FileOk;
    hide FilesOk;
    hide NumberedBelow;
    hide LsnsOk;
    assert SomeMatch(st, d[i]);
    var k: nat :| Matches(st, d[i], k);
    assert d[i].name in NameSet(d);
    LtIrreflexive(d[i].end);
    assert k < j ==> Lt(st.dir[k].end, st.dir[j].end);
    assert j < k ==> Lt(st.dir[j].end, st.dir[k].end);
  }

  lemma {:induction false} ScanOne(st: Store, seen: seq<Name>, d: seq<MetaNode>, name: Name)
    requires Inv(st) && Scanned(st, seen, d) && name !in seen && name in st.files
    ensures Scanned(st, seen + [name], WithNode(d, FooterNode(st.files, name)))
  {
    hide Lt;
    hide Inv;
    hide Search;
    hide NameSet;
    hide FileRecs;
    var j := EveryFileHasANode(st, name);
    var node := FooterNode(st.files, name);
    var p := Search(d, node.end);
    SearchFinds(d, node.end);
    if p < |d| {
      EndIsNew(st, seen, d, name, j, p);
    }
    var n' := node.(lsn := |d| + 1);
    var d' := d[..p] + [n'] + d[p..];
    assert WithNode(d, node) == d';
    InsertEnds(d, p, n');
    InsertLsns(d, p, n');
    NamesOfInserted(d, p, n');
    assert Matches(st, n', j);
    forall i | 0 <= i < |d'|
      ensures SomeMatch(st, d'[i])
    {
      if i != p {
        assert SomeMatch(st, d[if i < p then i else i - 1]);
      }
    }
  }

  lemma {:induction false} InsertLsns(dir: seq<MetaNode>, p: nat, node: MetaNode)
    requires p <= |dir| && LsnsOk(dir) && node.lsn == |dir| + 1
    ensures LsnsOk(dir[..p] + [node] + dir[p..])
  {
  }

  lemma {:induction false} ScanAll(st: Store, order: seq<Name>)
    requires Inv(st) && Listing(st, order)
    ensures forall k :: 0 <= k <= |order| ==> forall n :: n in order[..k] ==> n in st.files
    ensures Scanned(st, order, LoadDir(st.files, order))
  {
    hide Inv;
    hide Scanned;
    ScanPrefix(st, order, |order|);
    assert order[..|order|] == order;
  }

  lemma {:induction false} ScanPrefix(st: Store, order: seq<Name>, k: nat)
    requires Inv(st) && Listing(st, order) && k <= |order|
    ensures forall n :: n in order[..k] ==> n in st.files
    ensures Scanned(st, order[..k], LoadDir(st.files, order[..k]))
  {
    hide Inv;
    hide Scanned;
    hide WithNode;
    if k == 0 {
      ScannedNone(st);
    } else {
      ScanPrefix(st, order, k - 1);
      assert order[..k][..k - 1] == order[..k - 1];
      var name := order[k - 1];
      var j := EveryFileHasANode(st, name);
      ScanOne(st, order[..k - 1], LoadDir(st.files, order[..k - 1]), name);
      assert order[..k - 1] + [name] == order[..k];
    }
  }

  lemma {:induction false} ScannedNone(st: Store)
    ensures Scanned(st, [], [])
  {
  }

  // ---- the same directory comes back ------------------------------------------------------------

  function EndRecs(dir: seq<MetaNode>): (s: seq<Rec>)
    ensures |s| == |dir|
  {
    seq(|dir|, i requires 0 <= i < |dir| => Rec(dir[i].end, 0, ADD))
  }

  ghost predicate HasEnd(dir: seq<MetaNode>, end: Key) {
    exists i :: 0 <= i < |dir| && dir[i].end == end
  }

  lemma {:induction false} EndRecIn(dir: seq<MetaNode>, x: Rec)
    ensures x in EndRecs(dir) <==> x == Rec(x.key, 0, ADD) && HasEnd(dir, x.key)
  {
    var s := EndRecs(dir);
    if x in s {
      var i :| 0 <= i < |s| && s[i] == x;
      assert dir[i].end == x.key;
    }
    if x == Rec(x.key, 0, ADD) && HasEnd(dir, x.key) {
      var i :| 0 <= i < |dir| && dir[i].end == x.key;
      assert s[i] == x;
    }
  }

  /** Sorted directories with the same ends have them in the same places. */
  lemma {:induction false} SameEnds(a: seq<MetaNode>, b: seq<MetaNode>)
    requires EndsRise(a) && EndsRise(b)
    requires forall i :: 0 <= i < |a| ==> HasEnd(b, a[i].end)
    requires forall j :: 0 <= j < |b| ==> HasEnd(a, b[j].end)
    ensures |a| == |b| && forall i :: 0 <= i < |a| ==> a[i].end == b[i].end
  {
    hide Lt;
    var s, t := EndRecs(a), EndRecs(b);
    forall x
      ensures x in s <==> x in t
    {
      EndRecIn(a, x);
      EndRecIn(b, x);
    }
    SortedSameElements(s, t);
    assert forall i :: 0 <= i < |a| ==> a[i].end == s[i].key;
    assert forall i :: 0 <= i < |b| ==> b[i].end == t[i].key;
  }

  lemma {:induction false} NodeSeen(st: Store, order: seq<Name>, d: seq<MetaNode>, j: nat)
    returns (i: nat)
    requires Inv(st) && Listing(st, order) && Scanned(st, order, d) && j < |st.dir|
    ensures i < |d| && d[i].end == st.dir[j].end && d[i].name == st.dir[j].name
  {
    hide Lt;
    hide FileRecs;
    hide NumberedBelow;
    hide LsnsOk;
    hide EndsRise;
    assert FileOk(st, j);
    assert st.dir[j].name in NameSet(d);
    i :| 0 <= i < |d| && d[i].name == st.dir[j].name;
    assert SomeMatch(st, d[i]);
    var k: nat :| Matches(st, d[i], k);
    assert forall x :: 0 <= x < j ==> st.dir[x].name != st.dir[j].name;
    assert forall x :: j < x < |st.dir| ==> st.dir[j].name != st.dir[x].name;
  }

  /** Whatever order the files are listed in, the scan rebuilds the directory the process had:
      the same ends in the same places, each with its file, and the count of what the file holds. */
  lemma {:induction false} ReloadRestores(st: Store, order: seq<Name>)
    requires Inv(st) && Listing(st, order)
    ensures var d := LoadDir(st.files, order);
            && |d| == |st.dir| && EndsRise(d) && LsnsOk(d)
            && forall i :: 0 <= i < |d| ==> Matches(st, d[i], i)
  {
    hide Inv;
    hide Lt;
    hide NameSet;
    hide LoadDir;
    hide FileRecs;
    ScanAll(st, order);
    var d := LoadDir(st.files, order);
    forall j | 0 <= j < |st.dir|
      ensures HasEnd(d, st.dir[j].end)
    {
      var i := NodeSeen(st, order, d, j);
    }
    forall i | 0 <= i < |d|
      ensures HasEnd(st.dir, d[i].end)
    {
      assert SomeMatch(st, d[i]);
      var j: nat :| Matches(st, d[i], j);
    }
    InvEnds(st);
    SameEnds(d, st.dir);
    forall i | 0 <= i < |d|
      ensures Matches(st, d[i], i)
    {
      assert SomeMatch(st, d[i]);
      MatchInPlace(st, d[i], i);
    }
  }

  lemma {:induction false} MatchInPlace(st: Store, n: MetaNode, i: nat)
    requires EndsRise(st.dir) && i < |st.dir| && SomeMatch(st, n) && n.end == st.dir[i].end
    ensures Matches(st, n, i)
  {
    hide Lt;
    hide FileRecs;
    var j: nat :| Matches(st, n, j);
    LtIrreflexive(n.end);
    assert forall x :: 0 <= x < i ==> Lt(st.dir[x].end, st.dir[i].end);
    assert forall x :: i < x < |st.dir| ==> Lt(st.dir[i].end, st.dir[x].end);
  }

  // ---- the filter --------------------------------------------------------------------------------

  lemma {:induction false} BitsCover(recs: seq<Rec>, size: nat, i: nat)
    requires size > 0 && i < |recs|
    ensures Positions(recs[i].key, size) <= BitsOf(recs, size)
  {
    hide Positions;
    if i < |recs| - 1 {
      BitsCover(recs[..|recs| - 1], size, i);
    }
  }

  /** The rebuilt filter lets every key of every file through. */
  lemma {:induction false} ReloadedFilterCovers(files: map<Name, Image>, order: seq<Name>, size: nat, name: Name,
                                                i: nat)
    requires size > 0 && forall n :: n in order ==> n in files
    requires name in order && i < |ReadAll(files[name])|
    ensures MayHold(LoadBits(files, order, size), ReadAll(files[name])[i].key, size)
  {
    hide Positions;
    hide ReadAll;
    var init, last := order[..|order| - 1], order[|order| - 1];
    if name == last {
      BitsCover(ReadAll(files[name]), size, i);
    } else {
      assert order == init + [last];
      ReloadedFilterCovers(files, init, size, name, i);
    }
  }
}
