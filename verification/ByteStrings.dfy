/** Go strings and bbolt keys: finite byte strings under bytewise lexicographic order. */
module ByteStrings {

  newtype byte = x: int | 0 <= x < 256

  type Bytes = seq<byte>

  /** `k` is the first place where `a` and `b` part, and `a` comes first there. */
  predicate PartsBelow(a: Bytes, b: Bytes, k: nat)
  {
    && k <= |a|
    && k < |b|
    && (forall i :: 0 <= i < k ==> a[i] == b[i])
    && (k == |a| || a[k] < b[k])
  }

  /** Go's `<` on strings, and the order of keys in a bbolt bucket. */
  predicate Less(a: Bytes, b: Bytes)
  {
    exists k | 0 <= k <= |a| :: PartsBelow(a, b, k)
  }

  predicate Leq(a: Bytes, b: Bytes)
  {
    !Less(b, a)
  }

  lemma PartingPoint(a: Bytes, b: Bytes) returns (k: nat)
    requires Less(a, b)
    ensures PartsBelow(a, b, k)
  {
    k :| 0 <= k <= |a| && PartsBelow(a, b, k);
  }

  lemma LessIrreflexive(a: Bytes)
    ensures !Less(a, a)
  {
  }

  lemma LessTransitive(a: Bytes, b: Bytes, c: Bytes)
    requires Less(a, b) && Less(b, c)
    ensures Less(a, c)
  {
    var i := PartingPoint(a, b);
    var j := PartingPoint(b, c);
    assert PartsBelow(a, c, if i < j then i else j);
  }

  lemma {:induction false} LessTotal(a: Bytes, b: Bytes)
    ensures Less(a, b) || a == b || Less(b, a)
  {
    LessTotalFrom(a, b, 0);
  }

  lemma {:induction false} LessTotalFrom(a: Bytes, b: Bytes, k: nat)
    requires k <= |a| && k <= |b| && a[..k] == b[..k]
    ensures Less(a, b) || a == b || Less(b, a)
    decreases |a| - k
  {
    assert forall i :: 0 <= i < k ==> a[i] == a[..k][i] == b[i];
    if k == |a| && k == |b| {
      assert a == a[..k] == b[..k] == b;
    } else if k < |a| && k < |b| && a[k] == b[k] {
      assert a[..k + 1] == a[..k] + [a[k]] == b[..k] + [b[k]] == b[..k + 1];
      LessTotalFrom(a, b, k + 1);
    } else if k == |a| || (k < |b| && a[k] < b[k]) {
      assert PartsBelow(a, b, k);
    } else {
      assert PartsBelow(b, a, k);
    }
  }

  /** Less is a strict total order, in the form the proofs below use. */
  lemma OrderLaws()
    ensures forall a {:trigger Less(a, a)} :: !Less(a, a)
    ensures forall a, b, c {:trigger Less(a, b), Less(b, c)} :: Less(a, b) && Less(b, c) ==> Less(a, c)
    ensures forall a, b, c {:trigger Less(a, b), Less(c, b)} :: Less(a, b) && !Less(c, b) ==> Less(a, c)
    ensures forall a, b, c {:trigger Less(a, b), Less(a, c)} :: Less(a, b) && !Less(a, c) ==> Less(c, b)
    ensures forall a, b {:trigger Less(a, b)} :: Less(a, b) ==> !Less(b, a)
    ensures forall a, b {:trigger Less(a, b), Less(b, a)} :: Less(a, b) || a == b || Less(b, a)
  {
    forall a, b, c
      ensures Less(a, b) && Less(b, c) ==> Less(a, c)
      ensures Less(a, b) && !Less(c, b) ==> Less(a, c)
      ensures Less(a, b) && !Less(a, c) ==> Less(c, b)
      ensures Less(a, b) ==> !Less(b, a)
      ensures Less(a, b) || a == b || Less(b, a)
    {
      if Less(a, b) && Less(b, c) { LessTransitive(a, b, c); }
      LessTotal(a, b);
      LessTotal(b, c);
      LessTotal(a, c);
      if Less(a, b) && Less(b, a) { LessTransitive(a, b, a); }
      if Less(c, a) && Less(a, b) { LessTransitive(c, a, b); }
      if Less(a, b) && Less(b, c) { LessTransitive(a, b, c); }
    }
  }

  lemma LessAsymmetric(a: Bytes, b: Bytes)
    requires Less(a, b)
    ensures !Less(b, a)
  {
  }

  lemma LeqTransitive(a: Bytes, b: Bytes, c: Bytes)
    requires Leq(a, b) && Leq(b, c)
    ensures Leq(a, c)
  {
    LessTotal(b, c);
    OrderLaws();
  }

  /** Go's hasBytePrefix. */
  predicate HasPrefix(b: Bytes, p: Bytes)
  {
    |b| >= |p| && b[..|p|] == p
  }

  lemma LessAppend(p: Bytes, a: Bytes, b: Bytes)
    requires Less(a, b)
    ensures Less(p + a, p + b)
  {
    var k := PartingPoint(a, b);
    assert PartsBelow(p + a, p + b, |p| + k);
  }

  /** Two strings of one length that part early still part there when more is appended. */
  lemma LessExtend(a: Bytes, b: Bytes, x: Bytes, y: Bytes)
    requires |a| == |b| && Less(a, b)
    ensures Less(a + x, b + y)
  {
    var k := PartingPoint(a, b);
    assert PartsBelow(a + x, b + y, k);
  }

  lemma PartsAbovePrefix(p: Bytes, a: Bytes, b: Bytes, k: nat)
    requires PartsBelow(p, a, k) && k < |p|
    requires HasPrefix(b, p)
    ensures Less(b, a)
  {
    assert forall i :: 0 <= i < |p| ==> b[i] == b[..|p|][i] == p[i];
    assert PartsBelow(b, a, k);
  }

  /** The strings with a given prefix form one contiguous interval of the order, which starts at the prefix. */
  lemma PrefixInterval(p: Bytes, lo: Bytes, mid: Bytes, hi: Bytes)
    requires Leq(p, lo) && Leq(lo, mid) && Leq(mid, hi)
    requires HasPrefix(hi, p)
    ensures HasPrefix(mid, p)
  {
    OrderLaws();
    assert Leq(p, mid);
    if p != mid {
      LessTotal(p, mid);
      var k := PartingPoint(p, mid);
      if k < |p| {
        PartsAbovePrefix(p, mid, hi, k);
      }
    }
  }

  lemma PrefixIsLeast(p: Bytes, b: Bytes)
    requires HasPrefix(b, p)
    ensures Leq(p, b)
  {
  }

  lemma {:induction false} LeastOf(s: set<Bytes>) returns (k: Bytes)
    requires s != {}
    ensures k in s && forall x :: x in s ==> Leq(k, x)
    decreases |s|
  {
    hide Less;
    k :| k in s;
    LessIrreflexive(k);
    var a, t := k, s - {k};
    assert s == t + {a};
    if t != {} {
      var m := LeastOf(t);
      LessTotal(a, m);
      if Less(a, m) {
        LessAsymmetric(a, m);
      } else {
        k := m;
      }
      forall x | x in t ensures Leq(k, x) {
        LeqTransitive(k, m, x);
      }
    }
  }

  lemma LeastExists(s: set<Bytes>)
    requires s != {}
    ensures exists k :: k in s && forall x :: x in s ==> Leq(k, x)
  {
    var k := LeastOf(s);
  }

  /** The least string of a finite set: where a bbolt cursor or a sorted listing starts. */
  function Least(s: set<Bytes>): (k: Bytes)
    requires s != {}
    ensures k in s
    ensures forall x :: x in s ==> Leq(k, x)
  {
    LeastExists(s);
    OrderLaws();
    var k :| k in s && forall x :: x in s ==> Leq(k, x);
    k
  }
}
