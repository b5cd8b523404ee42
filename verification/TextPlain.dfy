/** What trimming, lower case and the order of strings are. */
module TextPlain {
  import opened Text

  predicate AllSpace(s: string) {
    forall i :: 0 <= i < |s| ==> IsSpace(s[i])
  }

  lemma {:induction false} LeftTrimmed(a: string, b: string)
    requires AllSpace(a) && (b != "" ==> !IsSpace(b[0]))
    ensures TrimLeft(a + b) == b
  {
    hide IsSpace;
    if a == "" {
      assert a + b == b;
    } else {
      assert (a + b)[1..] == a[1..] + b;
      LeftTrimmed(a[1..], b);
    }
  }

  lemma {:induction false} RightTrimmed(b: string, c: string)
    requires AllSpace(c) && (b != "" ==> !IsSpace(b[|b| - 1]))
    ensures TrimRight(b + c) == b
    decreases |c|
  {
    hide IsSpace;
    if c == "" {
      assert b + c == b;
    } else {
      var n := |c| - 1;
      assert (b + c)[..|b + c| - 1] == b + c[..n];
      RightTrimmed(b, c[..n]);
    }
  }

  /** Trimming takes the space off both ends and nothing else. */
  lemma TrimExactly(a: string, b: string, c: string)
    requires AllSpace(a) && AllSpace(c) && b != "" && !IsSpace(b[0]) && !IsSpace(b[|b| - 1])
    ensures Trim(a + b + c) == b
  {
    hide IsSpace;
    assert a + b + c == a + (b + c);
    LeftTrimmed(a, b + c);
    RightTrimmed(b, c);
  }

  /** Of the characters up to the no-break space these are space. */
  lemma SpaceIs(c: char)
    requires c <= '\U{00A0}'
    ensures IsSpace(c) <==> c == ' ' || '\t' <= c <= '\r' || c == '\U{0085}' || c == '\U{00A0}'
  {
  }

  /** Lower case turns the 26 letters into those 32 places on, and leaves the rest of ASCII. */
  lemma LowerExactly(s: string, i: nat)
    requires i < |s| && s[i] < '\U{0080}'
    ensures |Lower(s)| == |s|
    ensures Lower(s)[i] as int == s[i] as int + (if 'A' <= s[i] <= 'Z' then 32 else 0)
  {
    assert Lower(s)[i] == LowerChar(s[i]);
  }

  /** One string is less than another when it is a proper beginning of it, or has the smaller character where they first
      differ. */
  ghost predicate LessAt(a: string, b: string, p: nat) {
    p <= |a| && p < |b| && a[..p] == b[..p] && (p == |a| || a[p] < b[p])
  }

  lemma GreaterFirst(a: string, b: string)
    requires a != "" && b != "" && a[0] > b[0]
    ensures forall p: nat :: !LessAt(a, b, p)
  {
    forall p: nat ensures !LessAt(a, b, p) {
      if 0 < p <= |a| && p <= |b| { assert a[..p][0] == a[0] && b[..p][0] == b[0]; }
    }
  }

  lemma {:induction false} LessExactly(a: string, b: string)
    ensures StringLess(a, b) <==> exists p: nat :: LessAt(a, b, p)
  {
    if a == "" {
      if b != "" { assert LessAt(a, b, 0); }
    } else if b != "" {
      if a[0] == b[0] {
        LessExactly(a[1..], b[1..]);
        if p: nat :| LessAt(a[1..], b[1..], p) {
          assert a[..p + 1] == [a[0]] + a[1..][..p] && b[..p + 1] == [b[0]] + b[1..][..p];
          assert LessAt(a, b, p + 1);
        }
        if p: nat :| LessAt(a, b, p) {
          assert p > 0;
          assert a[1..][..p - 1] == a[..p][1..] && b[1..][..p - 1] == b[..p][1..];
          assert LessAt(a[1..], b[1..], p - 1);
        }
      } else if a[0] < b[0] {
        assert LessAt(a, b, 0);
      } else {
        GreaterFirst(a, b);
      }
    }
  }
}
