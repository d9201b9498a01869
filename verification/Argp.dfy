/** The argument vector, permuted in place (argp/argp-parse.c). */
module Argp {

  // ----- exchange

  /** The segments [b, m) and [m, t) trade places. */
  function Rotate(s: seq<string>, b: nat, m: nat, t: nat): seq<string>
    requires b <= m <= t <= |s|
  {
    s[..b] + s[m..t] + s[b..m] + s[t..]
  }

  /** Two blocks of `len` words trade places. */
  function Swap(s: seq<string>, x: nat, y: nat, len: nat): seq<string>
    requires x + len <= y && y + len <= |s|
  {
    s[..x] + s[y..y + len] + s[x + len..y] + s[x..x + len] + s[y + len..]
  }

  lemma BottomShort(s: seq<string>, s': seq<string>, b: nat, m: nat, t: nat)
    requires b <= m <= t <= |s| && t - m >= m - b && s' == Swap(s, b, t - (m - b), m - b)
    ensures Rotate(s', b, m, t - (m - b)) == Rotate(s, b, m, t)
  {
    var k := t - (m - b);
    assert s'[m..k] == s[m..k] && s'[b..m] == s[k..t] && s'[k..] == s[b..m] + s[t..];
    assert s[m..t] == s[m..k] + s[k..t];
  }

  lemma TopShort(s: seq<string>, s': seq<string>, b: nat, m: nat, t: nat)
    requires b <= m <= t <= |s| && t - m <= m - b && s' == Swap(s, b, m, t - m)
    ensures Rotate(s', b + (t - m), m, t) == Rotate(s, b, m, t)
  {
    var k := b + (t - m);
    assert s'[..k] == s[..b] + s[m..t] && s'[k..m] == s[k..m] && s'[m..t] == s[b..k] && s'[t..] == s[t..];
    assert s[b..m] == s[b..k] + s[k..m];
  }

  /** Where the word at a place comes from. */
  function Origin(x: nat, y: nat, len: nat, k: nat): nat
    requires x + len <= y
  {
    if x <= k < x + len then k - x + y else if y <= k < y + len then k - y + x else k
  }

  lemma SwapIndex(s: seq<string>, x: nat, y: nat, len: nat, k: nat)
    requires x + len <= y && y + len <= |s| && k < |s|
    ensures |Swap(s, x, y, len)| == |s| && Swap(s, x, y, len)[k] == s[Origin(x, y, len, k)]
  {
  }

  lemma SwapAt(s: seq<string>, s': seq<string>, x: nat, y: nat, len: nat)
    requires x + len <= y && y + len <= |s| == |s'|
    requires forall k :: 0 <= k < |s| ==> s'[k] == s[Origin(x, y, len, k)]
    ensures s' == Swap(s, x, y, len)
  {
    assert |Swap(s, x, y, len)| == |s|;
    forall k | 0 <= k < |s|
      ensures s'[k] == Swap(s, x, y, len)[k]
    {
      SwapIndex(s, x, y, len, k);
    }
  }

  method SwapBlocks(argv: array<string>, x: nat, y: nat, len: nat)
    requires x + len <= y && y + len <= argv.Length
    modifies argv
    ensures argv[..] == Swap(old(argv[..]), x, y, len)
  {
    ghost var s := argv[..];
    for i := 0 to len
      invariant forall k :: 0 <= k < |s| ==> argv[k] == s[Origin(x, y, i, k)]
    {
      argv[x + i], argv[y + i] := argv[y + i], argv[x + i];
    }
    SwapAt(s, argv[..], x, y, len);
  }

  lemma RotateParts(s: seq<string>, b: nat, m: nat, t: nat)
    requires b <= m <= t <= |s|
    ensures var r := Rotate(s, b, m, t);
            && |r| == |s|
            && r[..b + (t - m)] == s[..b] + s[m..t] && r[b + (t - m)..t] == s[b..m] && r[t..] == s[t..]
  {
  }

  lemma RotateNothing(s: seq<string>, b: nat, m: nat, t: nat)
    requires b <= m <= t <= |s| && (b == m || m == t)
    ensures Rotate(s, b, m, t) == s
  {
  }

  /** The bottom segment is the short one: it trades places with the far end of the top. */
  method SwapBottom(argv: array<string>, bottom: nat, middle: nat, top: nat) returns (top': nat)
    requires bottom < middle < top <= argv.Length && top - middle > middle - bottom
    modifies argv
    ensures top' == top - (middle - bottom)
    ensures Rotate(argv[..], bottom, middle, top') == Rotate(old(argv[..]), bottom, middle, top)
  {
    var len := middle - bottom;
    top' := top - len;
    SwapBlocks(argv, bottom, top', len);
    BottomShort(old(argv[..]), argv[..], bottom, middle, top);
  }

  /** The top segment is the short one: it trades places with the start of the bottom. */
  method SwapTop(argv: array<string>, bottom: nat, middle: nat, top: nat) returns (bottom': nat)
    requires bottom < middle < top <= argv.Length && top - middle <= middle - bottom
    modifies argv
    ensures bottom' == bottom + (top - middle)
    ensures Rotate(argv[..], bottom', middle, top) == Rotate(old(argv[..]), bottom, middle, top)
  {
    bottom' := bottom + (top - middle);
    SwapBlocks(argv, bottom, middle, top - middle);
    TopShort(old(argv[..]), argv[..], bottom, middle, top);
  }

  /** What is left to rotate shrinks. */
  method RotateStep(argv: array<string>, bottom: nat, middle: nat, top: nat) returns (bottom': nat, top': nat)
    requires bottom < middle < top <= argv.Length
    modifies argv
    ensures bottom <= bottom' <= middle <= top' <= top && top' - bottom' < top - bottom
    ensures Rotate(argv[..], bottom', middle, top') == Rotate(old(argv[..]), bottom, middle, top)
  {
    if top - middle > middle - bottom {
      bottom' := bottom;
      top' := SwapBottom(argv, bottom, middle, top);
    } else {
      top' := top;
      bottom' := SwapTop(argv, bottom, middle, top);
    }
  }

  /** The loop of exchange. */
  method RotateInPlace(argv: array<string>, first: nat, last: nat, next: nat)
    requires first <= last <= next <= argv.Length
    modifies argv
    ensures argv[..] == Rotate(old(argv[..]), first, last, next)
  {
    ghost var goal := Rotate(argv[..], first, last, next);
    var bottom: nat, top: nat := first, next;
    while top > last && last > bottom
      invariant bottom <= last <= top <= argv.Length
      invariant Rotate(argv[..], bottom, last, top) == goal
      decreases top - bottom
    {
      bottom, top := RotateStep(argv, bottom, last, top);
    }
    RotateNothing(argv[..], bottom, last, top);
  }

  /** exchange: the skipped words [first, last) move behind the words [last, next),
      and the new place of the skipped words is returned. */
  method Exchange(argv: array<string>, first: nat, last: nat, next: nat) returns (first': nat, last': nat)
    requires first <= last <= next <= argv.Length
    modifies argv
    ensures first' == first + (next - last) && last' == next
    ensures argv[..first'] == old(argv[..first] + argv[last..next])
    ensures argv[first'..last'] == old(argv[first..last])
    ensures argv[last'..] == old(argv[next..])
  {
    ghost var s := argv[..];
    RotateInPlace(argv, first, last, next);
    RotateParts(s, first, last, next);
    first', last' := first + (next - last), next;
    assert argv[..first'] == argv[..][..first'] &&
           argv[first'..last'] == argv[..][first'..last'] && argv[last'..] == argv[..][last'..];
    assert s[..first] == old(argv[..first]) && s[last..next] == old(argv[last..next]);
  }
}
