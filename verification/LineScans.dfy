/** Forward and backward scans over a sequence, and what they find once a run of
    elements is put in. */
module LineScans {

  /** The first index of `lo..hi` whose element passes `test`, or `hi`. */
  function First<T>(s: seq<T>, lo: nat, hi: nat, test: T -> bool): (r: nat)
    requires lo <= hi <= |s|
    ensures lo <= r <= hi
    ensures r < hi ==> test(s[r])
    decreases hi - lo
  {
    if lo == hi || test(s[lo]) then lo else First(s, lo + 1, hi, test)
  }

  /** The end of `lo..hi` once the trailing elements that pass `skip` are dropped. */
  function Back<T>(s: seq<T>, lo: nat, hi: nat, skip: T -> bool): (r: nat)
    requires lo <= hi <= |s|
    ensures lo <= r <= hi
    ensures r > lo ==> !skip(s[r - 1])
  {
    if hi > lo && skip(s[hi - 1]) then Back(s, lo, hi - 1, skip) else hi
  }

  /** The end of the run that starts at `lo`: up to the first element that stops it,
      without its trailing skipped elements. */
  function RunEnd<T>(s: seq<T>, lo: nat, hi: nat, stop: T -> bool, skip: T -> bool): (r: nat)
    requires lo <= hi <= |s|
    ensures lo <= r <= hi
    ensures r > lo ==> !skip(s[r - 1])
  {
    Back(s, lo, First(s, lo, hi, stop), skip)
  }

  /** Nothing before the first hit is a hit. */
  lemma {:induction false} FirstSkips<T>(s: seq<T>, lo: nat, hi: nat, test: T -> bool, i: nat)
    requires lo <= hi <= |s| && lo <= i < First(s, lo, hi, test)
    ensures !test(s[i])
    decreases hi - lo
  {
    if lo < i { FirstSkips(s, lo + 1, hi, test, i); }
  }

  /** Everything dropped from the back is skipped. */
  lemma {:induction false} BackSkips<T>(s: seq<T>, lo: nat, hi: nat, skip: T -> bool, i: nat)
    requires lo <= hi <= |s| && Back(s, lo, hi, skip) <= i < hi
    ensures skip(s[i])
  {
    if i < hi - 1 { BackSkips(s, lo, hi - 1, skip, i); }
  }

  lemma {:induction false} FirstIs<T>(s: seq<T>, lo: nat, hi: nat, test: T -> bool, r: nat)
    requires lo <= r <= hi <= |s|
    requires forall i {:trigger test(s[i])} | lo <= i < r :: !test(s[i])
    requires r < hi ==> test(s[r])
    ensures First(s, lo, hi, test) == r
    decreases hi - lo
  {
    if lo < r {
      assert !test(s[lo]);
      FirstIs(s, lo + 1, hi, test, r);
    }
  }

  lemma {:induction false} BackIs<T>(s: seq<T>, lo: nat, hi: nat, skip: T -> bool, r: nat)
    requires lo <= r <= hi <= |s|
    requires forall i {:trigger skip(s[i])} | r <= i < hi :: skip(s[i])
    requires r > lo ==> !skip(s[r - 1])
    ensures Back(s, lo, hi, skip) == r
  {
    if r < hi {
      assert skip(s[hi - 1]);
      BackIs(s, lo, hi - 1, skip, r);
    }
  }

  lemma RunEndIs<T>(s: seq<T>, lo: nat, hi: nat, stop: T -> bool, skip: T -> bool, raw: nat, r: nat)
    requires lo <= r <= raw <= hi <= |s|
    requires forall i {:trigger stop(s[i])} | lo <= i < raw :: !stop(s[i])
    requires raw < hi ==> stop(s[raw])
    requires forall i {:trigger skip(s[i])} | r <= i < raw :: skip(s[i])
    requires r > lo ==> !skip(s[r - 1])
    ensures RunEnd(s, lo, hi, stop, skip) == r
  {
    FirstIs(s, lo, hi, stop, raw);
    BackIs(s, lo, raw, skip, r);
  }

  function Insert<T>(s: seq<T>, p: nat, n: seq<T>): (g: seq<T>)
    requires p <= |s|
    ensures |g| == |s| + |n|
    ensures forall i {:trigger g[i]} | 0 <= i < |g| ::
              g[i] == if i < p then s[i] else if i < p + |n| then n[i - p] else s[i - |n|]
  {
    s[..p] + n + s[p..]
  }

  /** A hit before the insertion point stays where it was. */
  lemma FirstBefore<T>(s: seq<T>, p: nat, n: seq<T>, lo: nat, hi: nat, test: T -> bool)
    requires lo <= hi <= |s| && p <= hi
    requires First(s, lo, hi, test) < p
    ensures First(Insert(s, p, n), lo, hi + |n|, test) == First(s, lo, hi, test)
  {
    var r := First(s, lo, hi, test);
    var g := Insert(s, p, n);
    forall i {:trigger test(g[i])} | lo <= i < r
      ensures !test(g[i])
    {
      FirstSkips(s, lo, hi, test, i);
    }
    FirstIs(g, lo, hi + |n|, test, r);
  }

  /** A hit at or after the insertion point moves by the elements put in, when none of them is a hit. */
  lemma FirstAfter<T>(s: seq<T>, p: nat, n: seq<T>, lo: nat, hi: nat, test: T -> bool)
    requires lo <= p <= hi <= |s| && p <= First(s, lo, hi, test)
    requires forall i {:trigger test(n[i])} | 0 <= i < |n| :: !test(n[i])
    ensures First(Insert(s, p, n), lo, hi + |n|, test) == First(s, lo, hi, test) + |n|
  {
    var r := First(s, lo, hi, test);
    var g := Insert(s, p, n);
    forall i {:trigger test(g[i])} | lo <= i < r + |n|
      ensures !test(g[i])
    {
      if i < p {
        FirstSkips(s, lo, hi, test, i);
      } else if i < p + |n| {
        assert !test(n[i - p]);
      } else {
        FirstSkips(s, lo, hi, test, i - |n|);
      }
    }
    assert r < hi ==> test(g[r + |n|]);
    FirstIs(g, lo, hi + |n|, test, r + |n|);
  }

  /** The first element put in is the hit, when there was none before it. */
  lemma FirstIsNew<T>(s: seq<T>, p: nat, n: seq<T>, lo: nat, hi: nat, test: T -> bool)
    requires lo <= p <= hi <= |s| && p <= First(s, lo, hi, test)
    requires n != [] && test(n[0])
    ensures First(Insert(s, p, n), lo, hi + |n|, test) == p
  {
    var g := Insert(s, p, n);
    forall i {:trigger test(g[i])} | lo <= i < p
      ensures !test(g[i])
    {
      FirstSkips(s, lo, hi, test, i);
    }
    FirstIs(g, lo, hi + |n|, test, p);
  }

  /** A run that reaches the insertion point takes in elements that neither stop it nor are skipped. */
  lemma RunTakesIn<T>(s: seq<T>, p: nat, n: seq<T>, lo: nat, hi: nat, stop: T -> bool, skip: T -> bool)
    requires lo <= p <= hi <= |s| && p <= RunEnd(s, lo, hi, stop, skip)
    requires n != []
    requires forall i {:trigger stop(n[i])} | 0 <= i < |n| :: !stop(n[i])
    requires !skip(n[|n| - 1])
    ensures RunEnd(Insert(s, p, n), lo, hi + |n|, stop, skip) == RunEnd(s, lo, hi, stop, skip) + |n|
  {
    hide First, Back, Insert;
    var g := Insert(s, p, n);
    var raw := First(s, lo, hi, stop);
    var r := Back(s, lo, raw, skip);
    FirstAfter(s, p, n, lo, hi, stop);
    forall i {:trigger skip(g[i])} | r + |n| <= i < raw + |n|
      ensures skip(g[i])
    {
      BackSkips(s, lo, raw, skip, i - |n|);
    }
    BackIs(g, lo, raw + |n|, skip, r + |n|);
  }

  /** An element put in that stops the run ends it there. */
  lemma RunIsCut<T>(s: seq<T>, p: nat, n: seq<T>, lo: nat, hi: nat, stop: T -> bool, skip: T -> bool)
    requires lo <= p <= hi <= |s| && p <= RunEnd(s, lo, hi, stop, skip)
    requires n != [] && stop(n[0])
    ensures RunEnd(Insert(s, p, n), lo, hi + |n|, stop, skip) <= p
    ensures (p > lo ==> !skip(s[p - 1])) ==> RunEnd(Insert(s, p, n), lo, hi + |n|, stop, skip) == p
  {
    FirstIsNew(s, p, n, lo, hi, stop);
    if p > lo ==> !skip(s[p - 1]) {
      BackIs(Insert(s, p, n), lo, p, skip, p);
    }
  }

  /** A run that ends before the insertion point keeps its end. */
  lemma RunEndsBefore<T>(s: seq<T>, p: nat, n: seq<T>, lo: nat, hi: nat, stop: T -> bool, skip: T -> bool)
    requires lo <= hi <= |s| && RunEnd(s, lo, hi, stop, skip) < p <= hi
    requires !skip(s[p - 1])
    ensures RunEnd(Insert(s, p, n), lo, hi + |n|, stop, skip) == RunEnd(s, lo, hi, stop, skip)
    ensures First(s, lo, hi, stop) < p
  {
    var g := Insert(s, p, n);
    var raw := First(s, lo, hi, stop);
    var r := Back(s, lo, raw, skip);
    if p <= raw { BackSkips(s, lo, raw, skip, p - 1); }
    FirstBefore(s, p, n, lo, hi, stop);
    forall i {:trigger skip(g[i])} | r <= i < raw
      ensures skip(g[i])
    {
      BackSkips(s, lo, raw, skip, i);
    }
    BackIs(g, lo, raw, skip, r);
  }

  /** A run that starts inside another and stops wherever that one does ends inside it. */
  lemma RunInsideRun<T>(s: seq<T>, lo: nat, lo2: nat, hi: nat, stop: T -> bool, stop2: T -> bool, skip: T -> bool)
    requires lo <= lo2 <= hi <= |s| && lo2 <= RunEnd(s, lo, hi, stop, skip)
    requires forall i {:trigger stop(s[i])} | lo2 <= i < hi :: stop(s[i]) ==> stop2(s[i])
    ensures RunEnd(s, lo2, hi, stop2, skip) <= RunEnd(s, lo, hi, stop, skip)
  {
    hide First, Back;
    var raw, r := First(s, lo, hi, stop), RunEnd(s, lo, hi, stop, skip);
    var r2 := RunEnd(s, lo2, hi, stop2, skip);
    if r < r2 {
      if raw < r2 { FirstSkips(s, lo2, hi, stop2, raw); }
      BackSkips(s, lo, raw, skip, r2 - 1);
    }
  }

  /** Elements before the insertion point stay, elements behind it move. */
  lemma SliceAside<T>(s: seq<T>, p: nat, n: seq<T>, lo: nat, hi: nat)
    requires lo <= hi <= |s| && p <= |s|
    ensures hi <= p ==> Insert(s, p, n)[lo..hi] == s[lo..hi]
    ensures p <= lo ==> Insert(s, p, n)[lo + |n|..hi + |n|] == s[lo..hi]
  {
    hide *;
  }

  /** A scan that starts at or after the insertion point moves as a whole. */
  lemma FirstMoves<T>(s: seq<T>, p: nat, n: seq<T>, lo: nat, hi: nat, test: T -> bool)
    requires p <= lo <= hi <= |s|
    ensures First(Insert(s, p, n), lo + |n|, hi + |n|, test) == First(s, lo, hi, test) + |n|
  {
    var g := Insert(s, p, n);
    var r := First(s, lo, hi, test);
    forall i {:trigger test(g[i])} | lo + |n| <= i < r + |n|
      ensures !test(g[i])
    {
      FirstSkips(s, lo, hi, test, i - |n|);
    }
    assert r < hi ==> test(g[r + |n|]);
    FirstIs(g, lo + |n|, hi + |n|, test, r + |n|);
  }

  lemma RunMoves<T>(s: seq<T>, p: nat, n: seq<T>, lo: nat, hi: nat, stop: T -> bool, skip: T -> bool)
    requires p <= lo <= hi <= |s|
    ensures RunEnd(Insert(s, p, n), lo + |n|, hi + |n|, stop, skip) == RunEnd(s, lo, hi, stop, skip) + |n|
  {
    hide First, Back, Insert;
    var g := Insert(s, p, n);
    var raw := First(s, lo, hi, stop);
    var r := Back(s, lo, raw, skip);
    FirstMoves(s, p, n, lo, hi, stop);
    forall i {:trigger skip(g[i])} | r + |n| <= i < raw + |n|
      ensures skip(g[i])
    {
      BackSkips(s, lo, raw, skip, i - |n|);
    }
    BackIs(g, lo + |n|, raw + |n|, skip, r + |n|);
  }

  /** Changing one element does not move a hit when the test treats both alike. */
  lemma FirstSwap<T>(s: seq<T>, h: nat, x: T, lo: nat, hi: nat, test: T -> bool)
    requires lo <= hi <= |s| && h < |s|
    requires test(s[h]) == test(x)
    ensures First(s[h := x], lo, hi, test) == First(s, lo, hi, test)
  {
    var g := s[h := x];
    var r := First(s, lo, hi, test);
    forall i {:trigger test(g[i])} | lo <= i < r
      ensures !test(g[i])
    {
      FirstSkips(s, lo, hi, test, i);
    }
    FirstIs(g, lo, hi, test, r);
  }

  lemma RunSwap<T>(s: seq<T>, h: nat, x: T, lo: nat, hi: nat, stop: T -> bool, skip: T -> bool)
    requires lo <= hi <= |s| && h < |s|
    requires stop(s[h]) == stop(x) && skip(s[h]) == skip(x)
    ensures RunEnd(s[h := x], lo, hi, stop, skip) == RunEnd(s, lo, hi, stop, skip)
  {
    var g := s[h := x];
    FirstSwap(s, h, x, lo, hi, stop);
    var raw := First(s, lo, hi, stop);
    var r := Back(s, lo, raw, skip);
    forall i {:trigger skip(g[i])} | r <= i < raw
      ensures skip(g[i])
    {
      BackSkips(s, lo, raw, skip, i);
    }
    BackIs(g, lo, raw, skip, r);
  }
}
