/**
 * The handful of Python `str` operations the backend relies on, stated over
 * `seq<char>`: `strip`, `lower`/`upper` (ASCII letters only), `startswith`,
 * `in` (substring search), `split`, `join` and `replace`.
 */
module Strings {
  import opened Wrappers

  /** Python's `str.isspace()` for a single character. */
  predicate IsSpace(c: char) {
    c == ' ' || c == '\t' || c == '\n' || c == '\r' || c == '\U{0B}' || c == '\U{0C}'
    || c == '\U{1C}' || c == '\U{1D}' || c == '\U{1E}' || c == '\U{1F}'
    || c == '\U{85}' || c == '\U{A0}' || c == '\U{1680}'
    || ('\U{2000}' <= c <= '\U{200A}')
    || c == '\U{2028}' || c == '\U{2029}' || c == '\U{202F}' || c == '\U{205F}' || c == '\U{3000}'
  }

  /** `s.lstrip()`: the suffix left after dropping leading whitespace. */
  function StripStart(s: string): (r: string)
    ensures |r| <= |s| && r == s[|s| - |r|..]
    ensures r == [] || !IsSpace(r[0])
    ensures forall i :: 0 <= i < |s| - |r| ==> IsSpace(s[i])
  {
    if s != [] && IsSpace(s[0]) then StripStart(s[1..]) else s
  }

  /** `s.rstrip()`: the prefix left after dropping trailing whitespace. */
  function StripEnd(s: string): (r: string)
    ensures |r| <= |s| && r == s[..|r|]
    ensures r == [] || !IsSpace(r[|r| - 1])
    ensures forall i :: |r| <= i < |s| ==> IsSpace(s[i])
  {
    if s != [] && IsSpace(s[|s| - 1]) then StripEnd(s[..|s| - 1]) else s
  }

  /** `s.strip()`: a contiguous slice of `s` that neither starts nor ends with whitespace. */
  function Strip(s: string): (r: string)
    ensures |r| <= |StripStart(s)| <= |s|
    ensures r == s[|s| - |StripStart(s)|..|s| - |StripStart(s)| + |r|]
    ensures r == [] || (!IsSpace(r[0]) && !IsSpace(r[|r| - 1]))
    ensures (forall i :: 0 <= i < |s| ==> !IsSpace(s[i])) ==> r == s
  {
    StripEnd(StripStart(s))
  }

  lemma StripIdempotent(s: string)
    ensures Strip(Strip(s)) == Strip(s)
  {
    var r := Strip(s);
    assert forall i :: 0 <= i < |r| ==> r[i] == s[|s| - |StripStart(s)| + i];
    if r != [] {
      assert StripStart(r) == r;
      assert StripEnd(r) == r;
    }
  }

  /** `c.lower()` for ASCII letters; every other character is left as it is. */
  function LowerChar(c: char): char {
    if 'A' <= c <= 'Z' then (c as int - 'A' as int + 'a' as int) as char else c
  }

  /** `c.upper()` for ASCII letters; every other character is left as it is. */
  function UpperChar(c: char): char {
    if 'a' <= c <= 'z' then (c as int - 'a' as int + 'A' as int) as char else c
  }

  function Lower(s: string): (r: string)
    ensures |r| == |s|
    ensures forall i :: 0 <= i < |s| ==> r[i] == LowerChar(s[i])
  {
    seq(|s|, i requires 0 <= i < |s| => LowerChar(s[i]))
  }

  function Upper(s: string): (r: string)
    ensures |r| == |s|
    ensures forall i :: 0 <= i < |s| ==> r[i] == UpperChar(s[i])
  {
    seq(|s|, i requires 0 <= i < |s| => UpperChar(s[i]))
  }

  lemma LowerIdempotent(s: string)
    ensures Lower(Lower(s)) == Lower(s)
  {
  }

  /** `s.startswith(p)`. */
  predicate StartsWith(s: string, p: string) {
    |p| <= |s| && s[..|p|] == p
  }

  /** `sep` occurs in `s` starting at index `i`. */
  predicate OccursAt(s: string, sep: string, i: int) {
    0 <= i && i + |sep| <= |s| && s[i..i + |sep|] == sep
  }

  /** The first index at or after `k` where `sep` occurs in `s` (Python `s.find(sep, k)`). */
  function FindFrom(s: string, sep: string, k: nat): (r: Option<nat>)
    requires k <= |s|
    decreases |s| - k
    ensures r.Some? ==> k <= r.value && OccursAt(s, sep, r.value)
    ensures r.Some? ==> forall j :: k <= j < r.value ==> !OccursAt(s, sep, j)
    ensures r.None? ==> forall j :: k <= j ==> !OccursAt(s, sep, j)
  {
    if OccursAt(s, sep, k) then Some(k)
    else if k == |s| then None
    else FindFrom(s, sep, k + 1)
  }

  function Find(s: string, sep: string): (r: Option<nat>)
    ensures r.Some? ==> OccursAt(s, sep, r.value) && forall j :: j < r.value ==> !OccursAt(s, sep, j)
    ensures r.None? ==> forall j :: !OccursAt(s, sep, j)
  {
    FindFrom(s, sep, 0)
  }

  /** Python's `sub in s`. */
  predicate Contains(s: string, sub: string) {
    Find(s, sub).Some?
  }

  lemma ContainsAt(s: string, sub: string, i: nat)
    requires OccursAt(s, sub, i)
    ensures Contains(s, sub)
  {
  }

  /** A substring of a slice is a substring of the whole. */
  lemma ContainsInSlice(s: string, a: nat, b: nat, sub: string)
    requires a <= b <= |s|
    requires Contains(s[a..b], sub)
    ensures Contains(s, sub)
  {
    var i := Find(s[a..b], sub).value;
    assert OccursAt(s[a..b], sub, i);
    forall k | 0 <= k < |sub| ensures s[a + i + k] == sub[k] {
      assert s[a..b][i..i + |sub|][k] == sub[k];
      assert s[a..b][i + k] == s[a + i + k];
    }
    assert s[a + i..a + i + |sub|] == sub;
    ContainsAt(s, sub, a + i);
  }

  /** `sep.join(parts)`. */
  function Join(parts: seq<string>, sep: string): (r: string)
  {
    if |parts| == 0 then ""
    else if |parts| == 1 then parts[0]
    else parts[0] + sep + Join(parts[1..], sep)
  }

  /** `s.split(sep)` for a non-empty separator: the pieces between non-overlapping occurrences, left to right. */
  function Split(s: string, sep: string): (r: seq<string>)
    requires |sep| > 0
    decreases |s|
    ensures |r| >= 1
    ensures |r| >= 2 <==> Contains(s, sep)
  {
    match Find(s, sep)
    case None => [s]
    case Some(i) => [s[..i]] + Split(s[i + |sep|..], sep)
  }

  /** Splitting and then joining with the same separator gives back the text. */
  lemma {:induction false} SplitJoin(s: string, sep: string)
    requires |sep| > 0
    ensures Join(Split(s, sep), sep) == s
    decreases |s|
  {
    match Find(s, sep)
    case None =>
    case Some(i) =>
      var rest := s[i + |sep|..];
      SplitJoin(rest, sep);
      JoinCons(s[..i], Split(rest, sep), sep);
      RejoinAt(s, sep, i);
  }

  /** Cutting out an occurrence and putting it back gives the text. */
  lemma RejoinAt(s: string, sep: string, i: int)
    requires OccursAt(s, sep, i)
    ensures s == s[..i] + sep + s[i + |sep|..]
  {
  }

  /** Joining a piece in front of at least one other puts the separator after it. */
  lemma JoinCons(head: string, parts: seq<string>, sep: string)
    requires parts != []
    ensures Join([head] + parts, sep) == head + sep + Join(parts, sep)
  {
    assert ([head] + parts)[1..] == parts;
  }

  /** The text of `s` in front of the first `sep`, or all of `s` when there is none. */
  function Before(s: string, sep: string): (r: string)
    ensures |r| <= |s| && r == s[..|r|]
    ensures !Contains(s, sep) ==> r == s
    ensures Contains(s, sep) ==> OccursAt(s, sep, |r|)
    ensures forall j :: j < |r| ==> !OccursAt(s, sep, j)
  {
    match Find(s, sep)
    case None => s
    case Some(i) => s[..i]
  }

  /** The first piece of a split is the text before the first separator. */
  lemma SplitHead(s: string, sep: string)
    requires |sep| > 0
    ensures Split(s, sep)[0] == Before(s, sep)
  {
  }

  /** A text that opens with the separator splits into an empty piece and the split of the rest. */
  lemma SplitLeading(s: string, sep: string)
    requires |sep| > 0 && StartsWith(s, sep)
    ensures Split(s, sep) == [""] + Split(s[|sep|..], sep)
  {
    assert OccursAt(s, sep, 0);
    assert Find(s, sep) == Some(0);
  }

  /** No occurrence of `sep` starts before the first one. */
  lemma PrefixBeforeFirst(s: string, sep: string, i: nat)
    requires |sep| > 0 && i <= |s|
    requires forall j :: j < i ==> !OccursAt(s, sep, j)
    ensures !Contains(s[..i], sep)
  {
    if Contains(s[..i], sep) {
      var j := Find(s[..i], sep).value;
      assert s[..i][j..j + |sep|] == s[j..j + |sep|];
      assert OccursAt(s, sep, j);
    }
  }

  /** No piece of a split contains the separator. */
  lemma {:induction false} SplitPiecesFree(s: string, sep: string)
    requires |sep| > 0
    ensures forall k :: 0 <= k < |Split(s, sep)| ==> !Contains(Split(s, sep)[k], sep)
    decreases |s|
  {
    match Find(s, sep)
    case None =>
    case Some(i) =>
      var parts := Split(s[i + |sep|..], sep);
      PrefixBeforeFirst(s, sep, i);
      SplitPiecesFree(s[i + |sep|..], sep);
      assert Split(s, sep) == [s[..i]] + parts;
      forall k | 0 <= k < |Split(s, sep)| ensures !Contains(Split(s, sep)[k], sep) {
        if k > 0 {
          assert Split(s, sep)[k] == parts[k - 1];
        }
      }
  }

  /** A one-character text occurs in `s` exactly when that character does. */
  lemma ContainsChar(s: string, c: char)
    ensures Contains(s, [c]) <==> c in s
  {
    if c in s {
      var i :| 0 <= i < |s| && s[i] == c;
      assert s[i..i + 1] == [c];
      ContainsAt(s, [c], i);
    }
    if Contains(s, [c]) {
      var i := Find(s, [c]).value;
      assert s[i] == s[i..i + 1][0];
    }
  }

  /** Joining pieces without the separator character and splitting again gives back the pieces. */
  lemma {:induction false} JoinSplit(parts: seq<string>, c: char)
    requires |parts| >= 1 && forall k :: 0 <= k < |parts| ==> c !in parts[k]
    ensures Split(Join(parts, [c]), [c]) == parts
    decreases |parts|
  {
    var s := Join(parts, [c]);
    if |parts| == 1 {
      ContainsChar(parts[0], c);
    } else {
      var head := parts[0];
      var tail := Join(parts[1..], [c]);
      assert s == head + [c] + tail;
      assert s[|head|..|head| + 1] == [c];
      forall j | 0 <= j < |head| ensures !OccursAt(s, [c], j) {
        assert s[j] == head[j] != c;
        assert s[j..j + 1] != [c] by {
          assert s[j..j + 1][0] == s[j];
        }
      }
      assert OccursAt(s, [c], |head|);
      var f := Find(s, [c]);
      assert f.Some?;
      assert !(f.value < |head|) && !(f.value > |head|);
      assert s[|head| + 1..] == tail && s[..|head|] == head;
      assert Split(s, [c]) == [head] + Split(tail, [c]);
      JoinSplit(parts[1..], c);
      assert parts == [head] + parts[1..];
    }
  }

  /** Stripping text padded with whitespace on both sides gives the text, when it has none at its ends. */
  lemma StripPadded(left: string, s: string, right: string)
    requires forall i :: 0 <= i < |left| ==> IsSpace(left[i])
    requires forall i :: 0 <= i < |right| ==> IsSpace(right[i])
    requires s == [] || (!IsSpace(s[0]) && !IsSpace(s[|s| - 1]))
    ensures Strip(left + s + right) == s
  {
    if s == [] {
      assert left + s + right == (left + right) + [];
      forall i | 0 <= i < |left + right| ensures IsSpace((left + right)[i]) {
        if i >= |left| {
          assert (left + right)[i] == right[i - |left|];
        }
      }
      StripStartPadded(left + right, []);
    } else {
      StripStartPadded(left, s + right);
      assert left + s + right == left + (s + right);
      StripEndPadded(s, right);
    }
  }

  lemma {:induction false} StripStartPadded(left: string, s: string)
    requires forall i :: 0 <= i < |left| ==> IsSpace(left[i])
    requires s == [] || !IsSpace(s[0])
    ensures StripStart(left + s) == s
    decreases |left|
  {
    if left != [] {
      assert (left + s)[1..] == left[1..] + s;
      StripStartPadded(left[1..], s);
    } else {
      assert left + s == s;
    }
  }

  lemma {:induction false} StripEndPadded(s: string, right: string)
    requires forall i :: 0 <= i < |right| ==> IsSpace(right[i])
    requires s == [] || !IsSpace(s[|s| - 1])
    ensures StripEnd(s + right) == s
    decreases |right|
  {
    if right != [] {
      var t := s + right;
      assert t[..|t| - 1] == s + right[..|right| - 1];
      StripEndPadded(s, right[..|right| - 1]);
    } else {
      assert s + right == s;
    }
  }

  /** `s.replace(target, with)` for a non-empty `target`. */
  function Replace(s: string, target: string, with: string): (r: string)
    requires |target| > 0
  {
    Join(Split(s, target), with)
  }

  lemma ReplaceAbsent(s: string, target: string, with: string)
    requires |target| > 0 && !Contains(s, target)
    ensures Replace(s, target, with) == s
  {
  }

  const Fence: string := "```"

  /**
   * Dropping every fence leaves none behind: a piece in front of the first
   * fence cannot end in a backtick (that backtick would start an earlier fence),
   * so no fence can form across the seam of two pieces.
   */
  lemma {:induction false} RemoveFencesComplete(s: string)
    ensures !Contains(Replace(s, Fence, ""), Fence)
    decreases |s|
  {
    match Find(s, Fence)
    case None =>
      assert Replace(s, Fence, "") == s;
    case Some(i) =>
      var rest := s[i + 3..];
      PrefixBeforeFirst(s, Fence, i);
      RemoveFencesComplete(rest);
      var head := s[..i];
      NoTickBeforeFirstFence(s, i);
      ReplaceAtFirst(s, i);
      ConcatFenceFree(head, Replace(rest, Fence, ""));
  }

  /** The text in front of the first fence does not end in a backtick, or the fence would start earlier. */
  lemma NoTickBeforeFirstFence(s: string, i: nat)
    requires Find(s, Fence) == Some(i)
    ensures i > 0 ==> s[i - 1] != '`'
  {
    if i > 0 && s[i - 1] == '`' {
      assert s[i..i + 3] == Fence;
      assert s[i + 1] == s[i..i + 3][1] == '`';
      assert s[i] == s[i..i + 3][0] == '`';
      assert s[i - 1..i + 2] == Fence;
      assert OccursAt(s, Fence, i - 1);
    }
  }

  /** Removing fences keeps the text before the first one and continues after it. */
  lemma ReplaceAtFirst(s: string, i: nat)
    requires Find(s, Fence) == Some(i)
    ensures Replace(s, Fence, "") == s[..i] + Replace(s[i + 3..], Fence, "")
  {
    JoinCons(s[..i], Split(s[i + 3..], Fence), "");
    assert s[..i] + "" == s[..i];
  }

  lemma ConcatFenceFree(a: string, b: string)
    requires !Contains(a, Fence) && !Contains(b, Fence)
    requires a != [] ==> a[|a| - 1] != '`'
    ensures !Contains(a + b, Fence)
  {
    var ab := a + b;
    if Contains(ab, Fence) {
      var j := Find(ab, Fence).value;
      if j + 3 <= |a| {
        assert ab[j..j + 3] == a[j..j + 3];
        ContainsAt(a, Fence, j);
      } else if j >= |a| {
        assert ab[j..j + 3] == b[j - |a|..j - |a| + 3];
        ContainsAt(b, Fence, j - |a|);
      } else {
        FenceCharAt(ab, j, |a| - 1);
      }
    }
  }

  lemma FenceCharAt(s: string, j: int, p: int)
    requires OccursAt(s, Fence, j) && j <= p < j + 3
    ensures s[p] == '`'
  {
    assert s[p] == s[j..j + 3][p - j];
  }

  /** A slice of a fence-free text is fence-free. */
  lemma FenceFreeSlice(s: string, a: nat, b: nat)
    requires a <= b <= |s| && !Contains(s, Fence)
    ensures !Contains(s[a..b], Fence)
  {
    if Contains(s[a..b], Fence) {
      ContainsInSlice(s, a, b, Fence);
    }
  }

  lemma FenceFreePiece(s: string, r: string, k: int)
    requires 0 <= k && k + |r| <= |s| && r == s[k..k + |r|] && !Contains(s, Fence)
    ensures !Contains(r, Fence)
  {
    FenceFreeSlice(s, k, k + |r|);
  }

  /** Stripping a fence-free text leaves it fence-free. */
  lemma StripFenceFree(s: string)
    requires !Contains(s, Fence)
    ensures !Contains(Strip(s), Fence)
  {
    FenceFreePiece(s, Strip(s), |s| - |StripStart(s)|);
  }

  /** When `head` holds no fence and does not end in a backtick, the first fence of `head + Fence + tail` is the one right after `head`. */
  lemma FenceAfter(head: string, tail: string)
    requires !Contains(head, Fence) && (head == [] || head[|head| - 1] != '`')
    ensures Before(head + Fence + tail, Fence) == head
  {
    var s := head + Fence + tail;
    assert s[|head|..|head| + 3] == Fence;
    assert OccursAt(s, Fence, |head|);
    forall j | 0 <= j < |head| ensures !OccursAt(s, Fence, j) {
      if j + 3 <= |head| {
        assert s[j..j + 3] == head[j..j + 3];
        assert !OccursAt(head, Fence, j);
      } else if j + 3 <= |s| {
        assert s[j..j + 3][|head| - 1 - j] == head[|head| - 1];
      }
    }
  }
}
