/**
  Octets as text: what the trimming of UTF-8 strings takes off a field of octets that need not be
  UTF-8 at all. An octet that no valid encoding covers reads as the replacement character U+FFFD.
 */
module BufrTexts {
  import opened Bits

  /** The length of the character that starts at k, or 0 if no valid encoding starts there. */
  function RuneAt(s: seq<byte>, k: nat): (n: nat)
    requires k < |s|
    ensures n <= 4 && k + n <= |s| && (s[k] < 0x80 <==> n == 1)
  {
    var c := s[k];
    if c < 0x80 then 1
    else if 0xc2 <= c <= 0xdf && Follows(s, k, 1) then 2
    else if 0xe0 <= c <= 0xef && Follows(s, k, 2) && Second(c, s[k + 1]) then 3
    else if 0xf0 <= c <= 0xf4 && Follows(s, k, 3) && Second(c, s[k + 1]) then 4
    else 0
  }

  /** n octets of the form 10xxxxxx come after octet k. */
  predicate Follows(s: seq<byte>, k: nat, n: nat) {
    k + n < |s| && forall i :: k < i <= k + n ==> 0x80 <= s[i] < 0xc0
  }

  /** Neither overlong nor a surrogate nor beyond U+10FFFF. */
  predicate Second(first: byte, second: byte) {
    && (first == 0xe0 ==> second >= 0xa0)
    && (first == 0xed ==> second < 0xa0)
    && (first == 0xf0 ==> second >= 0x90)
    && (first == 0xf4 ==> second < 0x90)
  }

  predicate ReplacementAt(s: seq<byte>, k: nat) {
    k + 3 <= |s| && s[k] == 0xef && s[k + 1] == 0xbf && s[k + 2] == 0xbd
  }

  /** The length of the character that ends s, or 0 if its last octet ends no valid encoding. */
  function LastRune(s: seq<byte>): (n: nat)
    requires s != []
    ensures n <= |s| && (n > 0 ==> RuneAt(s, |s| - n) == n)
    ensures n == 1 <==> s[|s| - 1] < 0x80
  {
    if s[|s| - 1] < 0x80 then 1
    else if |s| >= 2 && RuneAt(s, |s| - 2) == 2 then 2
    else if |s| >= 3 && RuneAt(s, |s| - 3) == 3 then 3
    else if |s| >= 4 && RuneAt(s, |s| - 4) == 4 then 4
    else 0
  }

  // ----- Padding: NUL, blank, and whatever reads as U+FFFD -----

  /** How much padding one character, of length n at k, is; 0 if it is none. */
  function PadLength(s: seq<byte>, k: nat, n: nat): (pad: nat)
    requires k < |s|
    ensures pad <= 3
  {
    if n == 0 then 1
    else if n == 1 then if s[k] == 0 || s[k] == 0x20 then 1 else 0
    else if n == 3 && ReplacementAt(s, k) then 3
    else 0
  }

  function TrimPadRight(s: seq<byte>): seq<byte> {
    if s == [] then s else
    var n := LastRune(s);
    var pad := PadLength(s, if n == 0 then |s| - 1 else |s| - n, n);
    if pad == 0 then s else TrimPadRight(s[..|s| - pad])
  }

  function TrimPadLeft(s: seq<byte>): seq<byte> {
    if s == [] then s else
    var pad := PadLength(s, 0, RuneAt(s, 0));
    if pad == 0 then s else TrimPadLeft(s[pad..])
  }

  predicate IsPadding(s: seq<byte>) {
    TrimPadLeft(TrimPadRight(s)) == []
  }

  /** Nothing but padding starts at k. */
  predicate PadAt(s: seq<byte>, k: nat)
    requires k < |s|
  {
    PadLength(s, k, RuneAt(s, k)) > 0
  }

  predicate AllPad(s: seq<byte>) {
    forall k :: 0 <= k < |s| ==> PadAt(s, k)
  }

  /** A valid encoding that starts before the last character ends before it. */
  lemma RunesApart(s: seq<byte>, k: nat, cut: nat)
    requires k < cut < |s|
    requires (cut == |s| - 1 && LastRune(s) == 0) || !(0x80 <= s[cut] < 0xc0)
    ensures k + RuneAt(s, k) <= cut
  {
  }

  lemma RuneInPrefix(s: seq<byte>, k: nat, cut: nat)
    requires k < cut <= |s| && k + RuneAt(s, k) <= cut
    ensures RuneAt(s[..cut], k) == RuneAt(s, k) && PadAt(s[..cut], k) == PadAt(s, k)
  {
    var p := s[..cut];
    assert forall i :: 0 <= i < cut ==> p[i] == s[i];
    if Follows(p, k, 1) { assert Follows(s, k, 1); }
    if Follows(p, k, 2) { assert Follows(s, k, 2); }
    if Follows(p, k, 3) { assert Follows(s, k, 3); }
  }

  lemma RuneInSuffix(s: seq<byte>, k: nat, cut: nat)
    requires cut <= k < |s|
    ensures RuneAt(s[cut..], k - cut) == RuneAt(s, k) && PadAt(s[cut..], k - cut) == PadAt(s, k)
  {
    var p := s[cut..];
    assert forall i :: 0 <= i < |p| ==> p[i] == s[i + cut];
    FollowsInSuffix(s, k, cut, 1);
    FollowsInSuffix(s, k, cut, 2);
    FollowsInSuffix(s, k, cut, 3);
  }

  lemma FollowsInSuffix(s: seq<byte>, k: nat, cut: nat, n: nat)
    requires cut <= k < |s|
    ensures Follows(s[cut..], k - cut, n) == Follows(s, k, n)
  {
    var p := s[cut..];
    if Follows(p, k - cut, n) {
      forall i | k < i <= k + n
        ensures 0x80 <= s[i] < 0xc0
      {
        assert p[i - cut] == s[i];
      }
    }
  }

  lemma {:induction false} RightPads(s: seq<byte>)
    ensures AllPad(TrimPadRight(s)) <==> AllPad(s)
    decreases |s|
  {
    hide RuneAt, AllPad;
    if s != [] {
      var n := LastRune(s);
      var pad := PadLength(s, if n == 0 then |s| - 1 else |s| - n, n);
      if pad > 0 {
        RightPads(s[..|s| - pad]);
        PadTakenRight(s, |s| - pad);
      }
    }
  }

  lemma PadTakenRight(s: seq<byte>, cut: nat)
    requires s != [] && cut < |s|
    requires var n := LastRune(s); |s| - cut == PadLength(s, if n == 0 then |s| - 1 else |s| - n, n)
    ensures AllPad(s[..cut]) <==> AllPad(s)
  {
    hide PadAt, LastRune, RuneAt;
    PadBehind(s, cut);
    forall k | 0 <= k < cut
      ensures PadAt(s[..cut], k) == PadAt(s, k)
    {
      RunesApart(s, k, cut);
      RuneInPrefix(s, k, cut);
    }
  }

  lemma PadBehind(s: seq<byte>, cut: nat)
    requires s != [] && cut < |s|
    requires var n := LastRune(s); |s| - cut == PadLength(s, if n == 0 then |s| - 1 else |s| - n, n)
    ensures forall k :: cut <= k < |s| ==> PadAt(s, k)
    ensures (cut == |s| - 1 && LastRune(s) == 0) || !(0x80 <= s[cut] < 0xc0)
  {
  }

  lemma {:induction false} LeftPads(s: seq<byte>)
    ensures TrimPadLeft(s) == [] <==> AllPad(s)
    decreases |s|
  {
    if s != [] {
      var pad := PadLength(s, 0, RuneAt(s, 0));
      if pad > 0 {
        LeftPads(s[pad..]);
        PadTakenLeft(s, pad);
      } else {
        assert !PadAt(s, 0);
      }
    }
  }

  lemma PadTakenLeft(s: seq<byte>, pad: nat)
    requires s != [] && 0 < pad == PadLength(s, 0, RuneAt(s, 0))
    ensures pad <= |s| && (AllPad(s[pad..]) <==> AllPad(s))
  {
    PadAhead(s, pad);
    hide PadAt, RuneAt;
    forall k | pad <= k < |s|
      ensures PadAt(s[pad..], k - pad) == PadAt(s, k)
    {
      RuneInSuffix(s, k, pad);
    }
    if AllPad(s[pad..]) {
      forall k | 0 <= k < |s|
        ensures PadAt(s, k)
      {
        if k >= pad {
          assert PadAt(s[pad..], k - pad);
        }
      }
    } else {
      var k :| 0 <= k < |s[pad..]| && !PadAt(s[pad..], k);
      assert !PadAt(s, k + pad);
    }
  }

  lemma PadAhead(s: seq<byte>, pad: nat)
    requires s != [] && 0 < pad == PadLength(s, 0, RuneAt(s, 0))
    ensures pad <= |s| && forall k :: 0 <= k < pad ==> PadAt(s, k)
  {
  }

  /** Trimmed away to nothing exactly if every character of it is NUL, blank or U+FFFD. */
  lemma PaddingIsAllPad(s: seq<byte>)
    ensures IsPadding(s) <==> AllPad(s)
  {
    RightPads(s);
    LeftPads(TrimPadRight(s));
  }

  // ----- White space -----

  /** The n octets at k are one white space character. */
  predicate IsSpace(s: seq<byte>, k: nat, n: nat) {
    && k + n <= |s|
    && match n
       case 1 => 0x09 <= s[k] <= 0x0d || s[k] == 0x20
       case 2 => s[k] == 0xc2 && (s[k + 1] == 0x85 || s[k + 1] == 0xa0)
       case 3 => WideSpace(s[k], s[k + 1], s[k + 2])
       case _ => false
  }

  /** U+1680, U+2000 to U+200A, U+2028, U+2029, U+202F, U+205F and U+3000. */
  predicate WideSpace(a: byte, b: byte, c: byte) {
    || (a == 0xe1 && b == 0x9a && c == 0x80)
    || (a == 0xe2 && b == 0x80 && (0x80 <= c <= 0x8a || c in {0xa8, 0xa9, 0xaf}))
    || (a == 0xe2 && b == 0x81 && c == 0x9f)
    || (a == 0xe3 && b == 0x80 && c == 0x80)
  }

  function TrimSpaceLeft(s: seq<byte>): seq<byte> {
    if s == [] then s else
    var n := RuneAt(s, 0);
    if IsSpace(s, 0, n) then TrimSpaceLeft(s[n..]) else s
  }

  function TrimSpaceRight(s: seq<byte>): seq<byte> {
    if s == [] then s else
    var n := LastRune(s);
    if IsSpace(s, |s| - n, n) then TrimSpaceRight(s[..|s| - n]) else s
  }

  function TrimNul(s: seq<byte>): seq<byte> {
    if s != [] && s[0] == 0 then TrimNul(s[1..])
    else if s != [] && s[|s| - 1] == 0 then TrimNul(s[..|s| - 1])
    else s
  }

  function Trimmed(s: seq<byte>): seq<byte> {
    TrimSpaceRight(TrimSpaceLeft(TrimNul(s)))
  }

  /** Octet k is NUL or part of a white space character. */
  predicate Blank(s: seq<byte>, k: nat)
    requires k < |s|
  {
    s[k] == 0 || exists j, n :: 0 <= j <= k < j + n <= |s| && IsSpace(s, j, n)
  }

  predicate StartsWithSpace(s: seq<byte>) {
    IsSpace(s, 0, 1) || IsSpace(s, 0, 2) || IsSpace(s, 0, 3)
  }

  predicate EndsWithSpace(s: seq<byte>) {
    || (|s| >= 1 && IsSpace(s, |s| - 1, 1))
    || (|s| >= 2 && IsSpace(s, |s| - 2, 2))
    || (|s| >= 3 && IsSpace(s, |s| - 3, 3))
  }

  lemma SpaceWithin(s: seq<byte>, lo: nat, hi: nat, k: nat, n: nat)
    requires lo <= k && k + n <= hi <= |s|
    ensures IsSpace(s[lo..hi], k - lo, n) == IsSpace(s, k, n)
  {
  }

  lemma BlankWithin(s: seq<byte>, lo: nat, hi: nat, k: nat)
    requires lo <= k < hi <= |s| && Blank(s[lo..hi], k - lo)
    ensures Blank(s, k)
  {
    hide IsSpace;
    var t := s[lo..hi];
    if t[k - lo] != 0 {
      var j, n :| 0 <= j <= k - lo < j + n <= |t| && IsSpace(t, j, n);
      SpaceWithin(s, lo, hi, j + lo, n);
    }
  }

  lemma NoSpaceAhead(s: seq<byte>)
    requires s != [] && !IsSpace(s, 0, RuneAt(s, 0))
    ensures !StartsWithSpace(s)
  {
  }

  lemma NoSpaceBehind(s: seq<byte>)
    requires s != [] && !IsSpace(s, |s| - LastRune(s), LastRune(s))
    ensures !EndsWithSpace(s)
  {
  }

  lemma {:induction false} LeftTrimmed(s: seq<byte>) returns (a: nat)
    ensures a <= |s| && TrimSpaceLeft(s) == s[a..] && !StartsWithSpace(s[a..])
    ensures forall k :: 0 <= k < a ==> Blank(s, k)
    decreases |s|
  {
    a := 0;
    assert s[0..] == s;
    if s != [] {
      var n := RuneAt(s, 0);
      if IsSpace(s, 0, n) {
        SomeSpace(s, 0, n);
        hide IsSpace, Blank, StartsWithSpace, RuneAt;
        var rest := s[n..];
        var b := LeftTrimmed(rest);
        a := b + n;
        assert s[a..] == rest[b..] && rest == s[n..|s|];
        forall k | 0 <= k < a
          ensures Blank(s, k)
        {
          if k < n { SpaceIsBlank(s, 0, n, k); } else { BlankWithin(s, n, |s|, k); }
        }
      } else {
        NoSpaceAhead(s);
      }
    }
  }

  lemma SomeSpace(s: seq<byte>, k: nat, n: nat)
    requires IsSpace(s, k, n)
    ensures 1 <= n <= 3 && k + n <= |s|
  {
  }

  lemma SpaceIsBlank(s: seq<byte>, j: nat, n: nat, k: nat)
    requires IsSpace(s, j, n) && j <= k < j + n <= |s|
    ensures Blank(s, k)
  {
  }

  lemma {:induction false} RightTrimmed(s: seq<byte>) returns (b: nat)
    ensures b <= |s| && TrimSpaceRight(s) == s[..b] && !EndsWithSpace(s[..b])
    ensures forall k :: b <= k < |s| ==> Blank(s, k)
    decreases |s|
  {
    b := |s|;
    assert s[..b] == s;
    if s != [] {
      var n := LastRune(s);
      if IsSpace(s, |s| - n, n) {
        SomeSpace(s, |s| - n, n);
        hide IsSpace, Blank, EndsWithSpace, LastRune;
        var cut := |s| - n;
        b := RightTrimmed(s[..cut]);
        assert s[..b] == s[..cut][..b] && s[0..cut] == s[..cut];
        forall k | b <= k < |s|
          ensures Blank(s, k)
        {
          if k >= cut { SpaceIsBlank(s, cut, n, k); } else { BlankWithin(s, 0, cut, k); }
        }
      } else {
        NoSpaceBehind(s);
      }
    }
  }

  lemma {:induction false} NulsTrimmed(s: seq<byte>) returns (a: nat, b: nat)
    ensures a <= b <= |s| && TrimNul(s) == s[a..b]
    ensures (forall k :: 0 <= k < a ==> s[k] == 0) && (forall k :: b <= k < |s| ==> s[k] == 0)
    decreases |s|
  {
    if s != [] && s[0] == 0 {
      var rest := s[1..];
      var c, d := NulsTrimmed(rest);
      a, b := c + 1, d + 1;
      assert rest[c..d] == s[a..b];
      assert forall k :: 0 < k < |s| ==> s[k] == rest[k - 1];
    } else if s != [] && s[|s| - 1] == 0 {
      var front := s[..|s| - 1];
      a, b := NulsTrimmed(front);
      assert front[a..b] == s[a..b];
      assert forall k :: 0 <= k < |front| ==> s[k] == front[k];
    } else {
      a, b := 0, |s|;
      assert s[0..|s|] == s;
    }
  }

  lemma NoSpaceInPrefix(s: seq<byte>, b: nat)
    requires b <= |s| && !StartsWithSpace(s)
    ensures !StartsWithSpace(s[..b])
  {
  }

  /**
    Only NULs and white space are cut off the ends of a text, nothing in between is touched, and no
    white space is left at either end.
   */
  lemma TrimmedEnds(s: seq<byte>) returns (a: nat, b: nat)
    ensures a <= b <= |s| && Trimmed(s) == s[a..b]
    ensures forall k :: 0 <= k < a || b <= k < |s| ==> Blank(s, k)
    ensures !StartsWithSpace(s[a..b]) && !EndsWithSpace(s[a..b])
  {
    hide Blank, StartsWithSpace, EndsWithSpace, TrimSpaceLeft, TrimSpaceRight, TrimNul;
    var lo, hi := NulsTrimmed(s);
    var t := s[lo..hi];
    var c := LeftTrimmed(t);
    var u := t[c..];
    assert u == s[lo + c..hi];
    var d := RightTrimmed(u);
    NoSpaceInPrefix(u, d);
    a, b := lo + c, lo + c + d;
    assert u[..d] == s[a..b];
    forall k | 0 <= k < a || b <= k < |s|
      ensures Blank(s, k)
    {
      if k < lo || k >= hi {
        NulIsBlank(s, k);
      } else if k < a {
        BlankWithin(s, lo, hi, k);
      } else {
        BlankWithin(s, lo + c, hi, k);
      }
    }
  }

  lemma NulIsBlank(s: seq<byte>, k: nat)
    requires k < |s| && s[k] == 0
    ensures Blank(s, k)
  {
  }
}
