/** The bounded-memory sort of one collection's doc refs: sorted runs spilled to a temp directory,
    merged back by a binary heap of run readers. */
module ExtSort {
  import opened ByteStrings
  import opened Decimals
  import opened DocRefs
  import opened Permutations

  /** The spill's private temp directory: file name to lines. Shared by a spill and all its iterators. */
  class TempDir {
    var files: map<Bytes, seq<DocRef>>

    constructor ()
      ensures files == map[]
    {
      files := map[];
    }
  }

  /** Every file of `before` is still there, with the same lines. */
  ghost predicate Grows(before: map<Bytes, seq<DocRef>>, after: map<Bytes, seq<DocRef>>)
  {
    forall p :: p in before ==> p in after && after[p] == before[p]
  }

  lemma SortedTail(refs: seq<DocRef>, k: nat)
    requires Sorted(refs) && k <= |refs|
    ensures Sorted(refs[k..])
  {
  }

  /** An open run file and the ref last read from it. `rest` is that ref and every line after it. */
  class RunReader {
    const dir: TempDir
    const path: Bytes
    var pos: nat
    var cur: DocRef
    var ok: bool
    ghost var rest: seq<DocRef>

    ghost predicate Valid()
      reads this, dir
    {
      && path in dir.files
      && pos <= |dir.files[path]|
      && (ok ==> pos > 0 && cur == dir.files[path][pos - 1])
      && rest == (if ok then dir.files[path][pos - 1..] else [])
      && Sorted(rest)
      && Sorted(dir.files[path])
    }

    constructor Open(dir: TempDir, path: Bytes)
      requires path in dir.files && Sorted(dir.files[path])
      ensures this.dir == dir && this.path == path
      ensures Valid() && pos == 0 && !ok
    {
      this.dir, this.path := dir, path;
      pos, ok, cur, rest := 0, false, DocRef([], []), [];
    }

    method Advance()
      requires Valid()
      modifies this
      ensures Valid()
      ensures ok <==> rest != []
      ensures old(ok) ==> rest == old(rest)[1..]
      ensures !old(ok) ==> rest == dir.files[path][old(pos)..]
    {
      var lines := dir.files[path];
      ghost var from := pos;
      assert ok ==> rest[1..] == lines[from..];
      if pos >= |lines| {
        ok := false;
      } else {
        cur, pos, ok := lines[pos], pos + 1, true;
      }
      rest := lines[from..];
      SortedTail(lines, from);
    }
  }

  /** Everything the readers have yet to deliver. */
  ghost function Total(runs: seq<RunReader>): multiset<DocRef>
    reads runs
  {
    if runs == [] then multiset{} else multiset(runs[0].rest) + Total(runs[1..])
  }

  lemma {:induction false} TotalConcat(a: seq<RunReader>, b: seq<RunReader>)
    ensures Total(a + b) == Total(a) + Total(b)
  {
    if a == [] {
      assert a + b == b;
    } else {
      assert (a + b)[1..] == a[1..] + b;
      TotalConcat(a[1..], b);
    }
  }

  lemma TotalSplit(a: seq<RunReader>, k: nat)
    requires k < |a|
    ensures Total(a) == multiset(a[k].rest) + Total(a[..k] + a[k + 1..])
  {
    assert a[k..][1..] == a[k + 1..];
    assert Total(a[k..]) == multiset(a[k].rest) + Total(a[k + 1..]);
    hide *;
    TotalConcat(a[..k], a[k + 1..]);
    TotalConcat(a[..k], a[k..]);
    assert a == a[..k] + a[k..];
    Regroup(Total(a[..k]), multiset(a[k].rest), Total(a[k + 1..]));
  }

  lemma {:induction false} TotalPermuted(a: seq<RunReader>, b: seq<RunReader>)
    requires multiset(a) == multiset(b)
    ensures Total(a) == Total(b)
    decreases |a|
  {
    assert |a| == |multiset(a)| == |multiset(b)| == |b|;
    if a != [] {
      assert a[0] in multiset(b);
      var k :| 0 <= k < |b| && b[k] == a[0];
      TotalSplit(b, k);
      RestPermuted(a, b, k);
      TotalPermuted(a[1..], b[..k] + b[k + 1..]);
    }
  }

  lemma {:induction false} TotalMember(runs: seq<RunReader>, x: DocRef)
    requires x in Total(runs)
    ensures exists r :: r in runs && x in r.rest
  {
    if x in runs[0].rest {
      assert runs[0] in runs;
    } else {
      TotalMember(runs[1..], x);
      var r :| r in runs[1..] && x in r.rest;
      assert r in runs;
    }
  }

  /** The ID each reader currently shows. */
  ghost function Keys(runs: seq<RunReader>): (keys: seq<Bytes>)
    reads runs
    ensures |keys| == |runs| && forall i :: 0 <= i < |runs| ==> keys[i] == runs[i].cur.id
  {
    seq(|runs|, i requires 0 <= i < |runs| reads runs => runs[i].cur.id)
  }

  predicate IsChild(i: nat, j: nat)
  {
    j == 2 * i + 1 || j == 2 * i + 2
  }

  /** The heap order between every node from `lo` on and its children, among the first `n` nodes. */
  ghost predicate HeapFrom(keys: seq<Bytes>, lo: nat, n: nat)
  {
    n <= |keys| && forall i: nat, j: nat {:trigger IsChild(i, j)} ::
      lo <= i && j < n && IsChild(i, j) ==> Leq(keys[i], keys[j])
  }

  lemma {:induction false} HeapRootLeast(keys: seq<Bytes>, n: nat, k: nat)
    requires k < n && HeapFrom(keys, 0, n)
    ensures Leq(keys[0], keys[k])
    decreases k
  {
    if k == 0 {
      LessIrreflexive(keys[0]);
    } else {
      var p := (k - 1) / 2;
      HeapRootLeast(keys, n, p);
      assert IsChild(p, k);
      LeqTransitive(keys[0], keys[p], keys[k]);
    }
  }

  /** While a key sinks from `i0` and stands at `i`: the heap order holds everywhere else from `i0` on,
      and the node above `i` is not above any child of `i`. */
  ghost predicate Sinking(keys: seq<Bytes>, i0: nat, i: nat, n: nat)
  {
    && i0 <= i
    && n <= |keys|
    && (forall a: nat, b: nat {:trigger IsChild(a, b)} ::
          i0 <= a && a != i && b < n && IsChild(a, b) ==> Leq(keys[a], keys[b]))
    && (forall a: nat, b: nat {:trigger IsChild(a, i), IsChild(i, b)} ::
          i0 <= a && b < n && IsChild(a, i) && IsChild(i, b) ==> Leq(keys[a], keys[b]))
  }

  lemma SinkOneLevel(keys: seq<Bytes>, i0: nat, i: nat, j: nat, n: nat)
    requires Sinking(keys, i0, i, n)
    requires IsChild(i, j) && j < n && Less(keys[j], keys[i])
    requires forall b: nat :: b < n && IsChild(i, b) ==> Leq(keys[j], keys[b])
    ensures Sinking(keys[i := keys[j]][j := keys[i]], i0, j, n)
  {
    LessAsymmetric(keys[j], keys[i]);
    var after := keys[i := keys[j]][j := keys[i]];
    forall a: nat, b: nat | i0 <= a && a != j && b < n && IsChild(a, b)
      ensures Leq(after[a], after[b])
    {
      if a != i && b == i { assert IsChild(a, i) && IsChild(i, j); }
    }
    forall a: nat, b: nat | i0 <= a && b < n && IsChild(a, j) && IsChild(j, b)
      ensures Leq(after[a], after[b])
    {
      assert a == i;
    }
  }

  lemma SinkDone(keys: seq<Bytes>, i0: nat, i: nat, j: nat, n: nat)
    requires Sinking(keys, i0, i, n)
    requires IsChild(i, j) && j < n && Leq(keys[i], keys[j])
    requires forall b: nat :: b < n && IsChild(i, b) ==> Leq(keys[j], keys[b])
    ensures HeapFrom(keys, i0, n)
  {
    forall b: nat | b < n && IsChild(i, b) ensures Leq(keys[i], keys[b]) {
      LeqTransitive(keys[i], keys[j], keys[b]);
    }
  }

  /** container/heap over run readers, ordered by the ID each reader currently shows. */
  class MergeHeap {
    var runs: seq<RunReader>

    constructor (runs: seq<RunReader>)
      ensures this.runs == runs
    {
      this.runs := runs;
    }

    method Swap(i: nat, j: nat)
      requires i < |runs| && j < |runs|
      modifies `runs
      ensures runs == old(runs)[i := old(runs)[j]][j := old(runs)[i]]
      ensures multiset(runs) == multiset(old(runs))
    {
      runs := runs[i := runs[j]][j := runs[i]];
    }

    /** Sift the node at `i0` down among the first `n` nodes. */
    method Down(i0: nat, n: nat)
      requires HeapFrom(Keys(runs), i0 + 1, n)
      modifies `runs
      ensures |runs| == |old(runs)| && multiset(runs) == multiset(old(runs))
      ensures runs[n..] == old(runs)[n..]
      ensures HeapFrom(Keys(runs), i0, n)
    {
      hide Less;
      var i := i0;
      while true
        invariant |runs| == |old(runs)| && multiset(runs) == multiset(old(runs))
        invariant Sinking(Keys(runs), i0, i, n)
        invariant runs[n..] == old(runs)[n..]
        decreases n - i
      {
        if 2 * i + 1 >= n {
          break;
        }
        var j := LeastChild(i, n);
        if !Less(runs[j].cur.id, runs[i].cur.id) {
          SinkDone(Keys(runs), i0, i, j, n);
          break;
        }
        ghost var keys := Keys(runs);
        SinkOneLevel(keys, i0, i, j, n);
        Swap(i, j);
        assert Keys(runs) == keys[i := keys[j]][j := keys[i]];
        i := j;
      }
    }

    method LeastChild(i: nat, n: nat) returns (j: nat)
      requires 2 * i + 1 < n <= |runs|
      ensures IsChild(i, j) && j < n
      ensures forall b: nat :: b < n && IsChild(i, b) ==> Leq(Keys(runs)[j], Keys(runs)[b])
    {
      j := 2 * i + 1;
      LessIrreflexive(runs[j].cur.id);
      if j + 1 < n && Less(runs[j + 1].cur.id, runs[j].cur.id) {
        LessAsymmetric(runs[j + 1].cur.id, runs[j].cur.id);
        j := j + 1;
        LessIrreflexive(runs[j].cur.id);
      }
    }

    /** heap.Init. */
    method Init()
      modifies `runs
      ensures |runs| == |old(runs)| && multiset(runs) == multiset(old(runs))
      ensures HeapFrom(Keys(runs), 0, |runs|)
    {
      var n := |runs|;
      var i := n / 2;
      while i > 0
        invariant 0 <= i <= n / 2 && |runs| == n
        invariant multiset(runs) == multiset(old(runs))
        invariant HeapFrom(Keys(runs), i, n)
      {
        i := i - 1;
        Down(i, n);
      }
    }

    /** heap.Fix at the root; its sift-up half never moves the root. */
    method FixRoot()
      requires runs != [] && HeapFrom(Keys(runs), 1, |runs|)
      modifies `runs
      ensures |runs| == |old(runs)| && multiset(runs) == multiset(old(runs))
      ensures HeapFrom(Keys(runs), 0, |runs|)
    {
      Down(0, |runs|);
    }

    /** heap.Pop: the root leaves, whatever it shows by now. */
    method Pop() returns (top: RunReader)
      requires runs != [] && HeapFrom(Keys(runs), 1, |runs|)
      modifies `runs
      ensures top == old(runs)[0] && multiset(runs) == multiset(old(runs)[1..])
      ensures HeapFrom(Keys(runs), 0, |runs|)
    {
      var n := |runs| - 1;
      ghost var before := runs;
      ghost var keys := Keys(runs);
      Swap(0, n);
      KeepsHeapBelowRoot(keys, Keys(runs), 1, n);
      assert runs[n..] == [before[0]];
      Down(0, n);
      DropLast(before, runs, n);
      assert Keys(runs[..n]) == Keys(runs)[..n];
      top := runs[n];
      runs := runs[..n];
    }
  }

  lemma KeepsHeapBelowRoot(keys: seq<Bytes>, after: seq<Bytes>, lo: nat, n: nat)
    requires lo <= 1 && n <= |keys| == |after| && HeapFrom(keys, lo, |keys|)
    requires forall j :: 1 <= j < n ==> after[j] == keys[j]
    ensures HeapFrom(after, 1, n)
  {
  }

  /** Move the first reader to its next line: exactly the ref it showed leaves the total. */
  method AdvanceFirst(runs: seq<RunReader>)
    requires runs != [] && forall j :: 1 <= j < |runs| ==> runs[j] != runs[0]
    requires runs[0].Valid() && runs[0].ok
    modifies runs[0]
    ensures runs[0].Valid() && (runs[0].ok <==> runs[0].rest != [])
    ensures old(runs[0].cur) in old(Total(runs))
    ensures Total(runs) == old(Total(runs)) - multiset{old(runs[0].cur)}
  {
    var top := runs[0];
    ghost var ref := top.cur;
    ghost var others := runs[1..];
    assert top.rest == [ref] + top.rest[1..];
    label L:
    top.Advance();
    TotalSame@L(others);
  }

  ghost predicate Ready(runs: seq<RunReader>, dir: TempDir)
    reads runs, dir
  {
    forall r :: r in runs ==> r.dir == dir && r.Valid() && r.ok
  }

  /** extSortMergeIterator: the k-way merge of the runs that were there when it was opened. */
  class MergeIterator {
    const dir: TempDir
    const mh: MergeHeap

    ghost predicate Valid()
      reads this, mh, mh.runs, dir
    {
      && Distinct(mh.runs)
      && Ready(mh.runs, dir)
      && HeapFrom(Keys(mh.runs), 0, |mh.runs|)
    }

    ghost function Remaining(): multiset<DocRef>
      reads this, mh, mh.runs
    {
      Total(mh.runs)
    }

    constructor (dir: TempDir, runs: seq<RunReader>)
      requires Distinct(runs)
      requires Ready(runs, dir)
      ensures this.dir == dir && fresh(mh) && multiset(mh.runs) == multiset(runs)
      ensures Valid() && Remaining() == Total(runs)
      ensures forall r :: r in mh.runs ==> r in runs
    {
      this.dir := dir;
      mh := new MergeHeap(runs);
      new;
      mh.Init();
      Rearranged(runs, mh.runs, dir);
    }

    /** Deliver the least remaining ref. */
    method Next() returns (ref: DocRef, ok: bool)
      requires Valid()
      modifies mh, mh.runs
      ensures Valid()
      ensures forall r :: r in mh.runs ==> r in old(mh.runs)
      ensures ok <==> old(Remaining()) != multiset{}
      ensures ok ==> ref in old(Remaining()) && Remaining() == old(Remaining()) - multiset{ref}
      ensures ok ==> forall x :: x in old(Remaining()) ==> Leq(ref.id, x.id)
      ensures !ok ==> Remaining() == multiset{}
    {
      if |mh.runs| == 0 {
        return DocRef([], []), false;
      }
      assert mh.runs[0] in mh.runs;
      assert mh.runs[0].rest[0] in Remaining();
      ref := TakeRoot();
      return ref, true;
    }

    method TakeRoot() returns (ref: DocRef)
      requires Valid() && mh.runs != []
      modifies mh, mh.runs
      ensures Valid()
      ensures forall r :: r in mh.runs ==> r in old(mh.runs)
      ensures ref in old(Remaining()) && Remaining() == old(Remaining()) - multiset{ref}
      ensures forall x :: x in old(Remaining()) ==> Leq(ref.id, x.id)
    {
      hide Less;
      hide Sorted;
      hide HeapFrom;
      hide Keys;
      hide Total;
      ghost var before, keys := mh.runs, Keys(mh.runs);
      ref := mh.runs[0].cur;
      RootIsLeast(before);
      assert before[0] in before;
      AdvanceFirst(mh.runs);
      assert HeapFrom(Keys(before), 1, |before|) by {
        KeepsHeapBelowRoot(keys, Keys(before), 0, |before|);
      }
      Restore(before);
    }

    /** The second half of Next: put the advanced root back in order, or drop it when its run has ended. */
    method Restore(ghost before: seq<RunReader>)
      requires mh.runs == before != [] && Distinct(before)
      requires forall r :: r in before ==> r.dir == dir && r.Valid()
      requires forall j :: 1 <= j < |before| ==> before[j].ok
      requires before[0].ok <==> before[0].rest != []
      requires HeapFrom(Keys(before), 1, |before|)
      modifies mh
      ensures Valid() && Remaining() == Total(before)
      ensures forall r :: r in mh.runs ==> r in before
    {
      ghost var live := if mh.runs[0].ok then before else before[1..];
      assert Ready(live, dir) && Total(live) == Total(before) && Distinct(live);
      if mh.runs[0].ok {
        mh.FixRoot();
      } else {
        var _ := mh.Pop();
      }
      assert Ready(live, dir);
      Rearranged(live, mh.runs, dir);
    }
  }

  lemma Rearranged(a: seq<RunReader>, b: seq<RunReader>, dir: TempDir)
    requires Ready(a, dir) && Distinct(a)
    requires multiset(a) == multiset(b)
    ensures Ready(b, dir) && Distinct(b) && Total(b) == Total(a)
    ensures forall r :: r in b ==> r in a
  {
    SameMembers(a, b);
    DistinctSub(a, b);
    TotalPermuted(a, b);
  }

  lemma RootIsLeast(runs: seq<RunReader>)
    requires runs != [] && HeapFrom(Keys(runs), 0, |runs|)
    requires forall r :: r in runs ==> r.rest != [] && r.rest[0] == r.cur && Sorted(r.rest)
    ensures forall x :: x in Total(runs) ==> Leq(runs[0].cur.id, x.id)
  {
    forall x | x in Total(runs)
      ensures Leq(runs[0].cur.id, x.id)
    {
      TotalMember(runs, x);
      var r :| r in runs && x in r.rest;
      var k :| 0 <= k < |runs| && runs[k] == r;
      HeapRootLeast(Keys(runs), |runs|, k);
      var m :| 0 <= m < |r.rest| && r.rest[m] == x;
      if m > 0 {
        LeqTransitive(runs[0].cur.id, r.cur.id, x.id);
      }
    }
  }

  twostate lemma {:induction false} TotalSame(runs: seq<RunReader>)
    requires forall i :: 0 <= i < |runs| ==> old(runs[i].rest) == runs[i].rest
    ensures Total(runs) == old(Total(runs))
  {
    if runs != [] {
      TotalSame(runs[1..]);
    }
  }

  /** sliceDocRefIterator. */
  class SliceIterator {
    const refs: seq<DocRef>
    var pos: nat

    ghost predicate Valid()
      reads this
    {
      pos <= |refs|
    }

    ghost function Pending(): seq<DocRef>
      reads this
      requires Valid()
    {
      refs[pos..]
    }

    constructor (refs: seq<DocRef>)
      ensures Valid() && Pending() == refs
    {
      this.refs := refs;
      pos := 0;
    }

    method Next() returns (ref: DocRef, ok: bool)
      requires Valid()
      modifies this
      ensures Valid()
      ensures ok <==> old(Pending()) != []
      ensures ok ==> ref == old(Pending())[0] && Pending() == old(Pending())[1..]
      ensures !ok ==> Pending() == []
    {
      if pos >= |refs| {
        return DocRef([], []), false;
      }
      ref, ok, pos := refs[pos], true, pos + 1;
    }
  }

  /** What NewIterator hands out: a copy of a small buffer, or a merge over the spilled runs. */
  datatype SortedIterator = Slice(slice: SliceIterator) | Merge(merge: MergeIterator)
  {
    ghost predicate Valid()
      reads match this { case Slice(s) => {s} case Merge(m) => {m as object, m.mh, m.dir} + (set r: object | r in m.mh.runs) }
    {
      match this
      case Slice(s) => s.Valid() && Sorted(s.Pending())
      case Merge(m) => m.Valid()
    }

    ghost function Remaining(): multiset<DocRef>
      requires Valid()
      reads match this { case Slice(s) => {s} case Merge(m) => {m as object, m.mh, m.dir} + (set r: object | r in m.mh.runs) }
    {
      match this
      case Slice(s) => multiset(s.Pending())
      case Merge(m) => m.Remaining()
    }

    /** The objects Next may change. */
    ghost function Footprint(): set<object>
      reads match this { case Slice(s) => {} case Merge(m) => {m.mh} }
    {
      match this
      case Slice(s) => {s}
      case Merge(m) => {m.mh as object} + (set r: object | r in m.mh.runs)
    }

    method Next() returns (ref: DocRef, ok: bool)
      requires Valid()
      modifies Footprint()
      ensures Valid() && Footprint() <= old(Footprint())
      ensures ok <==> old(Remaining()) != multiset{}
      ensures ok ==> ref in old(Remaining()) && Remaining() == old(Remaining()) - multiset{ref}
      ensures ok ==> forall x :: x in old(Remaining()) ==> Leq(ref.id, x.id)
      ensures !ok ==> Remaining() == multiset{}
    {
      match this
      case Slice(s) =>
        ghost var was := s.Pending();
        ref, ok := s.Next();
        if ok {
          assert was == [ref] + s.Pending();
          forall x | x in was ensures Leq(ref.id, x.id) {
            var k :| 0 <= k < |was| && was[k] == x;
            LessIrreflexive(ref.id);
          }
        }
      case Merge(m) =>
        ref, ok := m.Next();
    }
  }

  ghost predicate Below(out: seq<DocRef>, left: multiset<DocRef>)
  {
    Sorted(out) && forall i, x :: 0 <= i < |out| && x in left ==> Leq(out[i].id, x.id)
  }

  lemma TakeLeast(out: seq<DocRef>, left: multiset<DocRef>, ref: DocRef)
    requires Below(out, left) && ref in left
    requires forall x :: x in left ==> Leq(ref.id, x.id)
    ensures Below(out + [ref], left - multiset{ref})
    ensures multiset(out + [ref]) + (left - multiset{ref}) == multiset(out) + left
  {
  }

  /** drainDocRefIterator over a spill: a sorted arrangement of exactly what remained. */
  method Drain(it: SortedIterator) returns (out: seq<DocRef>)
    requires it.Valid()
    modifies it.Footprint()
    ensures Sorted(out) && multiset(out) == old(it.Remaining())
  {
    out := [];
    var more := true;
    while more
      invariant it.Valid() && it.Footprint() <= old(it.Footprint())
      invariant Below(out, it.Remaining())
      invariant multiset(out) + it.Remaining() == old(it.Remaining())
      invariant !more ==> it.Remaining() == multiset{}
      decreases |it.Remaining()|, more
    {
      ghost var left := it.Remaining();
      var ref, ok := it.Next();
      more := ok;
      if ok {
        TakeLeast(out, left, ref);
        out := out + [ref];
      }
    }
  }

  /** The multiset of all lines in the named files. */
  ghost function FilesTotal(paths: seq<Bytes>, files: map<Bytes, seq<DocRef>>): multiset<DocRef>
    requires forall p :: p in paths ==> p in files
  {
    if paths == [] then multiset{}
    else FilesTotal(paths[..|paths| - 1], files) + multiset(files[paths[|paths| - 1]])
  }

  lemma FilesTotalSnoc(paths: seq<Bytes>, path: Bytes, files: map<Bytes, seq<DocRef>>)
    requires forall p :: p in paths + [path] ==> p in files
    ensures forall p :: p in paths ==> p in files
    ensures FilesTotal(paths + [path], files) == FilesTotal(paths, files) + multiset(files[path])
  {
  }

  lemma {:induction false} FilesTotalGrows(paths: seq<Bytes>, before: map<Bytes, seq<DocRef>>, after: map<Bytes, seq<DocRef>>)
    requires forall p :: p in paths ==> p in before
    requires Grows(before, after)
    ensures FilesTotal(paths, after) == FilesTotal(paths, before)
  {
    if paths != [] {
      assert paths[|paths| - 1] in paths;
      FilesTotalGrows(paths[..|paths| - 1], before, after);
    }
  }

  /** The directory holds exactly the listed runs, each sorted, none listed twice. */
  ghost predicate RunsStored(paths: seq<Bytes>, files: map<Bytes, seq<DocRef>>)
  {
    && Distinct(paths)
    && (forall p :: p in files <==> p in paths)
    && (forall p :: p in files ==> Sorted(files[p]))
  }

  /** Runs are named by itoaPad in the order they were spilled. */
  ghost predicate NamedInOrder(paths: seq<Bytes>)
  {
    |paths| <= Pow10(RUN_NAME_DIGITS) && forall i :: 0 <= i < |paths| ==> paths[i] == LowDigits(i, RUN_NAME_DIGITS)
  }

  lemma StoreRun(paths: seq<Bytes>, files: map<Bytes, seq<DocRef>>, path: Bytes, run: seq<DocRef>)
    requires RunsStored(paths, files) && path !in paths && Sorted(run)
    ensures RunsStored(paths + [path], files[path := run])
    ensures Grows(files, files[path := run])
    ensures FilesTotal(paths + [path], files[path := run]) == FilesTotal(paths, files) + multiset(run)
  {
    FilesTotalGrows(paths, files, files[path := run]);
    FilesTotalSnoc(paths, path, files[path := run]);
  }

  lemma NewRunName(paths: seq<Bytes>)
    requires NamedInOrder(paths) && |paths| < Pow10(RUN_NAME_DIGITS)
    ensures LowDigits(|paths|, RUN_NAME_DIGITS) !in paths
    ensures NamedInOrder(paths + [LowDigits(|paths|, RUN_NAME_DIGITS)])
  {
    hide LowDigits;
    hide Pow10;
    hide Less;
    var path := LowDigits(|paths|, RUN_NAME_DIGITS);
    forall i | 0 <= i < |paths| ensures paths[i] != path {
      RunNamesDistinct(i, |paths|);
    }
  }

  /** extSortSpill. `added` is the history of every ref ever added, which no operation below may lose. */
  class ExtSortSpill {
    const dir: TempDir
    const runSize: int
    var buf: seq<DocRef>
    var runPaths: seq<Bytes>
    var dirty: bool
    ghost var added: multiset<DocRef>

    ghost predicate Valid()
      reads this, dir
    {
      && NamedInOrder(runPaths)
      && RunsStored(runPaths, dir.files)
      && (dirty ==> buf != [])
      && (!dirty ==> if runPaths == [] then Sorted(buf) else buf == [])
      && added == FilesTotal(runPaths, dir.files) + multiset(buf)
    }

    /** The next run file name has not been used before: itoaPad starts over after 10^10 runs. */
    ghost predicate NameLeft()
      reads this
    {
      |runPaths| < Pow10(RUN_NAME_DIGITS)
    }

    constructor (runSize: int)
      ensures this.runSize == runSize && fresh(dir)
      ensures Valid() && added == multiset{} && runPaths == [] && buf == []
    {
      this.runSize := runSize;
      dir := new TempDir();
      buf, runPaths, dirty := [], [], false;
      added := multiset{};
    }

    method Add(ref: DocRef)
      requires Valid() && NameLeft()
      modifies this, dir
      ensures Valid() && added == old(added) + multiset{ref}
      ensures Grows(old(dir.files), dir.files)
      ensures |runPaths| <= |old(runPaths)| + 1
    {
      hide Less;
      hide NamedInOrder;
      hide RunsStored;
      hide FilesTotal;
      buf := buf + [ref];
      dirty := true;
      added := added + multiset{ref};
      if |buf| >= runSize {
        SpillBuffer();
      }
    }

    method SpillBuffer()
      requires Valid() && NameLeft()
      modifies this, dir
      ensures Valid() && added == old(added) && buf == [] && !dirty
      ensures Grows(old(dir.files), dir.files)
      ensures |runPaths| == |old(runPaths)| + (if old(buf) == [] then 0 else 1)
    {
      hide Less;
      hide LowDigits;
      hide Pow10;
      hide Sorted;
      hide FilesTotal;
      hide NamedInOrder;
      if |buf| == 0 {
        return;
      }
      var sorted := SortById(buf);
      var path := ItoaPad(|runPaths|);
      NewRunName(runPaths);
      StoreRun(runPaths, dir.files, path, sorted);
      dir.files := dir.files[path := sorted];
      runPaths := runPaths + [path];
      buf := [];
      dirty := false;
    }

    /** An iterator over exactly what has been added so far, leaving the spill able to take more. */
    method NewIterator() returns (it: SortedIterator)
      requires Valid() && NameLeft()
      modifies this, dir
      ensures Valid() && added == old(added)
      ensures Grows(old(dir.files), dir.files)
      ensures it.Valid() && fresh(it.Footprint()) && it.Remaining() == added
      ensures it.Merge? ==> it.merge.dir == dir
      ensures |runPaths| <= |old(runPaths)| + 1
    {
      if |runPaths| == 0 {
        it := CopyBuffer();
      } else {
        if dirty {
          SpillBuffer();
        }
        it := MergeRuns();
      }
    }

    /** Nothing has been spilled: sort the buffer in place once, and iterate over a copy of it. */
    method CopyBuffer() returns (it: SortedIterator)
      requires Valid() && runPaths == []
      modifies this
      ensures Valid() && added == old(added) && runPaths == []
      ensures it.Slice? && fresh(it.slice) && it.Valid() && it.Remaining() == added
    {
      if dirty {
        buf := SortById(buf);
        dirty := false;
      }
      var copy := new SliceIterator(buf);
      it := Slice(copy);
    }

    method MergeRuns() returns (it: SortedIterator)
      requires Valid() && runPaths != [] && !dirty
      ensures it.Merge? && it.merge.dir == dir && fresh(it.Footprint())
      ensures it.Valid() && it.Remaining() == added
    {
      hide Less;
      hide Sorted;
      hide NamedInOrder;
      hide Total;
      hide FilesTotal;
      hide Distinct;
      hide Ready;
      hide LowDigits;
      hide HeapFrom;
      hide Keys;
      assert forall p :: p in runPaths ==> p in dir.files && Sorted(dir.files[p]);
      var runs := OpenRuns(dir, runPaths);
      var merge := new MergeIterator(dir, runs);
      it := Merge(merge);
    }
  }

  /** Open every run and read its first line; an empty run is closed again at once. */
  method OpenRuns(dir: TempDir, paths: seq<Bytes>) returns (runs: seq<RunReader>)
    requires forall p :: p in paths ==> p in dir.files && Sorted(dir.files[p])
    ensures Distinct(runs) && Ready(runs, dir)
    ensures forall i :: 0 <= i < |runs| ==> fresh(runs[i])
    ensures Total(runs) == FilesTotal(paths, dir.files)
  {
    hide *;
    runs := [];
    NoReaders(dir, dir.files);
    assert paths[..0] == [];
    for i := 0 to |paths|
      invariant Distinct(runs) && Ready(runs, dir)
      invariant forall i :: 0 <= i < |runs| ==> fresh(runs[i])
      invariant Total(runs) == FilesTotal(paths[..i], dir.files)
    {
      assert paths[i] in paths;
      assert paths[..i + 1] == paths[..i] + [paths[i]];
      FilesTotalSnoc(paths[..i], paths[i], dir.files);
      var r := OpenRun(dir, paths[i]);
      AppendReader(runs, r, dir);
      if r.ok {
        runs := runs + [r];
      }
    }
    assert paths[..|paths|] == paths;
  }

  lemma NoReaders(dir: TempDir, files: map<Bytes, seq<DocRef>>)
    ensures Distinct<RunReader>([]) && Ready([], dir) && Total([]) == FilesTotal([], files)
  {
  }

  method OpenRun(dir: TempDir, path: Bytes) returns (r: RunReader)
    requires path in dir.files && Sorted(dir.files[path])
    ensures fresh(r) && r.dir == dir && r.Valid()
    ensures r.rest == dir.files[path] && (r.ok <==> r.rest != [])
  {
    r := new RunReader.Open(dir, path);
    r.Advance();
  }

  lemma AppendReader(runs: seq<RunReader>, r: RunReader, dir: TempDir)
    requires Distinct(runs) && Ready(runs, dir) && r !in runs
    requires r.dir == dir && r.Valid()
    ensures Total(runs + [r]) == Total(runs) + multiset(r.rest)
    ensures Distinct(runs + [r]) && (r.ok ==> Ready(runs + [r], dir))
  {
    TotalConcat(runs, [r]);
  }

  twostate lemma MergeUnaffected(m: MergeIterator)
    requires old(m.Valid())
    requires unchanged(m.mh) && forall r :: r in m.mh.runs ==> unchanged(r)
    requires Grows(old(m.dir.files), m.dir.files)
    ensures m.Valid() && m.Remaining() == old(m.Remaining())
  {
    hide Less;
    hide Sorted;
    hide HeapFrom;
    assert forall i :: 0 <= i < |m.mh.runs| ==> m.mh.runs[i] in m.mh.runs;
    TotalSame(m.mh.runs);
    assert Keys(m.mh.runs) == old(Keys(m.mh.runs));
    assert forall r :: r in m.mh.runs ==> old(r.Valid()) && r.path in old(m.dir.files);
  }

  /** An iterator handed out earlier is untouched by whatever the spill writes later: its files stay as they were. */
  twostate lemma EarlierIteratorUnaffected(it: SortedIterator)
    requires old(it.Valid())
    requires forall o :: o in old(it.Footprint()) ==> unchanged(o)
    requires it.Merge? ==> Grows(old(it.merge.dir.files), it.merge.dir.files)
    ensures it.Valid() && it.Footprint() == old(it.Footprint())
    ensures it.Remaining() == old(it.Remaining())
  {
    hide Less;
    hide Sorted;
    match it
    case Slice(s) =>
      assert s in old(it.Footprint());
    case Merge(m) =>
      assert m.mh in old(it.Footprint());
      assert forall r :: r in m.mh.runs ==> r in old(it.Footprint());
      MergeUnaffected(m);
  }

  datatype Op = AddRef(ref: DocRef) | OpenIterator

  ghost function AddedBy(script: seq<Op>): multiset<DocRef>
  {
    if script == [] then multiset{}
    else AddedBy(script[..|script| - 1]) +
         (match script[|script| - 1] case AddRef(r) => multiset{r} case OpenIterator => multiset{})
  }

  /** For each NewIterator call of the script, in order, the refs added before it. */
  ghost function SeenByIterators(script: seq<Op>): seq<multiset<DocRef>>
  {
    if script == [] then []
    else SeenByIterators(script[..|script| - 1]) +
         (if script[|script| - 1].OpenIterator? then [AddedBy(script[..|script| - 1])] else [])
  }

  /** Bookkeeping for one open iterator: the directory its runs are in, a bound on the objects it may change,
      and what it has to deliver. */
  datatype Lease = Lease(it: SortedIterator, dir: TempDir, foot: set<object>, owed: multiset<DocRef>)
  {
    ghost predicate Holds()
      reads *
    {
      && it.Valid() && it.Remaining() == owed
      && it.Footprint() <= foot && dir !in foot
      && (it.Merge? ==> it.merge.dir == dir)
    }
  }

  twostate predicate Undisturbed(lease: Lease)
    reads lease.foot, lease.dir
  {
    (forall o :: o in lease.foot ==> unchanged(o)) && Grows(old(lease.dir.files), lease.dir.files)
  }

  twostate lemma StillHolds(lease: Lease)
    requires old(lease.Holds()) && Undisturbed(lease)
    ensures lease.Holds()
  {
    EarlierIteratorUnaffected(lease.it);
  }

  /** The open iterators, each with its share to deliver and none able to disturb another. */
  ghost predicate AllHold(leases: seq<Lease>)
    reads *
  {
    && (forall k :: 0 <= k < |leases| ==> leases[k].Holds())
    && (forall j, k :: 0 <= j < k < |leases| ==> leases[j].foot !! leases[k].foot)
  }

  twostate lemma AllStillHold(leases: seq<Lease>)
    requires old(AllHold(leases))
    requires forall k :: 0 <= k < |leases| ==> Undisturbed(leases[k])
    ensures AllHold(leases)
  {
    forall k | 0 <= k < |leases| ensures leases[k].Holds() {
      StillHolds(leases[k]);
    }
  }

  /** The leases belong to these iterators of this spill, and owe these amounts. */
  ghost predicate LeasedFrom(spill: ExtSortSpill, feet: set<object>, its: seq<SortedIterator>, leases: seq<Lease>,
                             owed: seq<multiset<DocRef>>)
  {
    && |its| == |leases| == |owed|
    && (forall k :: 0 <= k < |its| ==> leases[k].it == its[k] && leases[k].dir == spill.dir && leases[k].owed == owed[k])
    && (forall k :: 0 <= k < |its| ==> leases[k].foot <= feet)
    && spill !in feet && spill.dir !in feet
  }

  lemma ScriptStep(script: seq<Op>, i: nat)
    requires i < |script|
    ensures AddedBy(script[..i + 1]) == AddedBy(script[..i]) +
            (match script[i] case AddRef(r) => multiset{r} case OpenIterator => multiset{})
    ensures SeenByIterators(script[..i + 1]) ==
            if script[i].OpenIterator? then SeenByIterators(script[..i]) + [AddedBy(script[..i])] else SeenByIterators(script[..i])
  {
    assert script[..i + 1][..i] == script[..i];
  }

  lemma NothingLeased(spill: ExtSortSpill, script: seq<Op>)
    requires script == []
    ensures AddedBy(script) == multiset{}
    ensures AllHold([]) && LeasedFrom(spill, {}, [], [], SeenByIterators(script))
  {
  }

  lemma RoomForRun(spill: ExtSortSpill, i: nat, n: nat)
    requires |spill.runPaths| <= i < n < Pow10(RUN_NAME_DIGITS)
    ensures spill.NameLeft()
  {
  }

  /** Any interleaving of Add and NewIterator, with every iterator drained only at the very end: each yields a
      sorted arrangement of exactly the refs added before it was opened. */
  method RunScript(script: seq<Op>, runSize: int) returns (drained: seq<seq<DocRef>>)
    requires |script| < Pow10(RUN_NAME_DIGITS)
    ensures |drained| == |SeenByIterators(script)|
    ensures forall k :: 0 <= k < |drained| ==> Sorted(drained[k]) && multiset(drained[k]) == SeenByIterators(script)[k]
  {
    hide *;
    var spill := new ExtSortSpill(runSize);
    var its: seq<SortedIterator> := [];
    ghost var leases: seq<Lease> := [];
    ghost var feet: set<object> := {};
    NothingLeased(spill, script[..0]);
    for i := 0 to |script|
      invariant spill.Valid() && fresh(spill) && fresh(spill.dir) && |spill.runPaths| <= i
      invariant spill.added == AddedBy(script[..i])
      invariant fresh(feet)
      invariant AllHold(leases) && LeasedFrom(spill, feet, its, leases, SeenByIterators(script[..i]))
    {
      ScriptStep(script, i);
      RoomForRun(spill, i, |script|);
      its, leases, feet := Step(script[i], spill, feet, its, leases, SeenByIterators(script[..i]));
    }
    assert script[..|script|] == script;
    drained := DrainAll(spill, feet, its, leases, SeenByIterators(script));
  }

  method Step(op: Op, spill: ExtSortSpill, ghost feet: set<object>, its: seq<SortedIterator>, ghost leases: seq<Lease>,
              ghost owed: seq<multiset<DocRef>>)
    returns (its': seq<SortedIterator>, ghost leases': seq<Lease>, ghost feet': set<object>)
    requires spill.Valid() && spill.NameLeft()
    requires AllHold(leases) && LeasedFrom(spill, feet, its, leases, owed)
    modifies spill, spill.dir
    ensures spill.Valid() && |spill.runPaths| <= |old(spill.runPaths)| + 1
    ensures spill.added == old(spill.added) + (match op case AddRef(r) => multiset{r} case OpenIterator => multiset{})
    ensures fresh(feet' - feet) && AllHold(leases')
    ensures LeasedFrom(spill, feet', its', leases', if op.OpenIterator? then owed + [old(spill.added)] else owed)
  {
    hide *;
    its', leases', feet' := its, leases, feet;
    match op
    case AddRef(r) =>
      AddAmong(spill, r, feet, its, leases, owed);
    case OpenIterator =>
      var it, lease := OpenAmong(spill, feet, its, leases, owed);
      its', leases', feet' := its + [it], leases + [lease], feet + lease.foot;
  }

  method AddAmong(spill: ExtSortSpill, ref: DocRef, ghost feet: set<object>, its: seq<SortedIterator>,
                  ghost leases: seq<Lease>, ghost owed: seq<multiset<DocRef>>)
    requires spill.Valid() && spill.NameLeft()
    requires AllHold(leases) && LeasedFrom(spill, feet, its, leases, owed)
    modifies spill, spill.dir
    ensures spill.Valid() && spill.added == old(spill.added) + multiset{ref}
    ensures |spill.runPaths| <= |old(spill.runPaths)| + 1
    ensures AllHold(leases)
  {
    hide Lease.Holds;
    spill.Add(ref);
    AllStillHold(leases);
  }

  method OpenAmong(spill: ExtSortSpill, ghost feet: set<object>, its: seq<SortedIterator>, ghost leases: seq<Lease>,
                   ghost owed: seq<multiset<DocRef>>)
    returns (it: SortedIterator, ghost lease: Lease)
    requires spill.Valid() && spill.NameLeft()
    requires AllHold(leases) && LeasedFrom(spill, feet, its, leases, owed)
    modifies spill, spill.dir
    ensures spill.Valid() && spill.added == old(spill.added)
    ensures |spill.runPaths| <= |old(spill.runPaths)| + 1
    ensures fresh(lease.foot) && AllHold(leases + [lease])
    ensures LeasedFrom(spill, feet + lease.foot, its + [it], leases + [lease], owed + [spill.added])
  {
    hide Less;
    hide Sorted;
    hide ExtSortSpill.Valid;
    hide MergeIterator.Valid;
    hide ExtSortSpill.NameLeft;
    it := spill.NewIterator();
    lease := Lease(it, spill.dir, it.Footprint(), spill.added);
    assert lease.Holds();
    hide Lease.Holds;
    AllStillHold(leases);
  }

  method DrainAll(spill: ExtSortSpill, ghost feet: set<object>, its: seq<SortedIterator>, ghost leases: seq<Lease>,
                  ghost owed: seq<multiset<DocRef>>)
    returns (drained: seq<seq<DocRef>>)
    requires AllHold(leases) && LeasedFrom(spill, feet, its, leases, owed)
    modifies feet
    ensures |drained| == |owed|
    ensures forall k :: 0 <= k < |owed| ==> Sorted(drained[k]) && multiset(drained[k]) == owed[k]
  {
    hide Sorted;
    hide Lease.Holds;
    drained := [];
    for i := 0 to |its|
      invariant |drained| == i
      invariant forall k :: 0 <= k < i ==> Sorted(drained[k]) && multiset(drained[k]) == owed[k]
      invariant forall k :: i <= k < |its| ==> Undisturbed(leases[k])
    {
      StillHolds(leases[i]);
      var out := DrainLeased(its[i], leases[i]);
      drained := drained + [out];
    }
  }

  method DrainLeased(it: SortedIterator, ghost lease: Lease) returns (out: seq<DocRef>)
    requires lease.it == it && lease.Holds()
    modifies lease.foot
    ensures Sorted(out) && multiset(out) == lease.owed
  {
    out := Drain(it);
  }
}
