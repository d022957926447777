/**
 * The clean-up applied to the vision model's raw answer before it is parsed:
 * `text.strip().replace("```json", "").replace("```", "")`.
 */
module Cleaning {

  /** The characters Python's `str.isspace` accepts, which `str.strip()` removes. */
  predicate IsSpace(c: char) {
    || c == ' ' || c == '\t' || c == '\n' || c == '\r'
    || c == '\U{0B}' || c == '\U{0C}'
    || ('\U{1C}' <= c <= '\U{1F}')
    || c == '\U{85}' || c == '\U{A0}' || c == '\U{1680}'
    || ('\U{2000}' <= c <= '\U{200A}')
    || c == '\U{2028}' || c == '\U{2029}' || c == '\U{202F}' || c == '\U{205F}' || c == '\U{3000}'
  }

  /** `s` holds `pat` starting at position `i`. */
  predicate OccursAt(s: string, pat: string, i: int) {
    0 <= i <= |s| - |pat| && s[i..i + |pat|] == pat
  }

  /** `s` holds `pat` somewhere. */
  predicate Occurs(s: string, pat: string) {
    exists i | 0 <= i <= |s| :: OccursAt(s, pat, i)
  }

  /** Only whitespace lies outside positions `a` to `b` of `s`. */
  predicate SpaceOutside(s: string, a: int, b: int) {
    forall j | 0 <= j < |s| && (j < a || b <= j) :: IsSpace(s[j])
  }

  /** The first position at or after `i` that does not hold whitespace, or the end. */
  function SkipSpace(s: string, i: nat): (k: nat)
    requires i <= |s|
    ensures i <= k <= |s|
    ensures forall j | i <= j < k :: IsSpace(s[j])
    ensures k == |s| || !IsSpace(s[k])
    decreases |s| - i
  {
    if i < |s| && IsSpace(s[i]) then SkipSpace(s, i + 1) else i
  }

  /** The end of `s[lo..hi]` once its trailing whitespace is dropped. */
  function SkipSpaceBack(s: string, lo: nat, hi: nat): (e: nat)
    requires lo <= hi <= |s|
    ensures lo <= e <= hi
    ensures forall j | e <= j < hi :: IsSpace(s[j])
    ensures e == lo || !IsSpace(s[e - 1])
    decreases hi
  {
    if lo < hi && IsSpace(s[hi - 1]) then SkipSpaceBack(s, lo, hi - 1) else hi
  }

  /**
   * Python's `str.strip()`: the result is a slice of `s` that neither starts
   * nor ends with whitespace, and only whitespace lies around it.
   */
  function Strip(s: string): (r: string)
    ensures r == [] || (!IsSpace(r[0]) && !IsSpace(r[|r| - 1]))
    ensures exists a, b | 0 <= a <= b <= |s| :: r == s[a..b] && SpaceOutside(s, a, b)
  {
    var a := SkipSpace(s, 0);
    var b := SkipSpaceBack(s, a, |s|);
    assert SpaceOutside(s, a, b);
    s[a..b]
  }

  /** Text that neither starts nor ends with whitespace is left alone by `strip()`. */
  lemma StripKeepsTrimmed(s: string)
    requires s == [] || (!IsSpace(s[0]) && !IsSpace(s[|s| - 1]))
    ensures Strip(s) == s
  {
  }

  /** `strip()` is idempotent. */
  lemma StripIdempotent(s: string)
    ensures Strip(Strip(s)) == Strip(s)
  {
    StripKeepsTrimmed(Strip(s));
  }

  /**
   * Python's `s.replace(target, replacement)`: occurrences are found from the
   * left and do not overlap; the text after a replaced occurrence is searched
   * afresh. Replacing by the empty string never makes the text longer.
   */
  function ReplaceAll(s: string, target: string, replacement: string): (r: string)
    requires target != []
    ensures replacement == [] ==> |r| <= |s|
    decreases |s|
  {
    if |s| < |target| then s
    else if s[..|target|] == target then replacement + ReplaceAll(s[|target|..], target, replacement)
    else [s[0]] + ReplaceAll(s[1..], target, replacement)
  }

  /** A prefix that never holds the first character of `target` is copied unchanged. */
  lemma {:induction false} ReplaceAllPrefix(a: string, b: string, target: string, replacement: string)
    requires target != []
    requires forall i | 0 <= i < |a| :: a[i] != target[0]
    ensures ReplaceAll(a + b, target, replacement) == a + ReplaceAll(b, target, replacement)
    decreases |a|
  {
    if a == [] {
      assert a + b == b;
    } else {
      var s := a + b;
      if |s| >= |target| {
        assert s[..|target|][0] == a[0];
      }
      if |b| < |target| && |s| < |target| {
        assert ReplaceAll(s, target, replacement) == s;
      }
      ReplaceAllPrefix(a[1..], b, target, replacement);
      assert s[1..] == a[1..] + b;
    }
  }

  const JsonFence: string := "```json"
  const Fence: string := "```"

  /** After every "```" has been removed, no "```" is left, not even one formed across a removal. */
  lemma {:induction false} NoFenceAfterRemoval(s: string)
    ensures !Occurs(ReplaceAll(s, Fence, ""), Fence)
    decreases |s|
  {
    var r := ReplaceAll(s, Fence, "");
    if |s| < 3 {
      assert |r| < 3;
    } else if s[..3] == Fence {
      NoFenceAfterRemoval(s[3..]);
      assert r == ReplaceAll(s[3..], Fence, "");
    } else {
      var t := ReplaceAll(s[1..], Fence, "");
      NoFenceAfterRemoval(s[1..]);
      assert r == [s[0]] + t;
      if Occurs(r, Fence) {
        var i :| OccursAt(r, Fence, i);
        assert OccursAt(r, Fence, i);
        assert |Fence| == 3 && 0 <= i <= |r| - 3 && r[i..i + 3] == Fence;
        if i > 0 {
          assert t[i - 1..i + 2] == r[i..i + 3];
          assert OccursAt(t, Fence, i - 1);
          assert false;
        } else {
          assert false;
        }
      }
    }
  }

  /** A text holding "```json" holds "```". */
  lemma JsonFenceHoldsFence(s: string)
    requires Occurs(s, JsonFence)
    ensures Occurs(s, Fence)
  {
    var i :| OccursAt(s, JsonFence, i);
    assert OccursAt(s, JsonFence, i);
    assert s[i..i + 3] == s[i..i + 7][..3];
    assert OccursAt(s, Fence, i);
  }

  /** Removing every "```" leaves neither "```" nor "```json". */
  lemma FenceFree(s: string)
    ensures !Occurs(ReplaceAll(s, Fence, ""), Fence)
    ensures !Occurs(ReplaceAll(s, Fence, ""), JsonFence)
  {
    NoFenceAfterRemoval(s);
    if Occurs(ReplaceAll(s, Fence, ""), JsonFence) {
      JsonFenceHoldsFence(ReplaceAll(s, Fence, ""));
    }
  }

  /**
   * The clean-up of line 80. The parser never sees a code fence: neither
   * "```" nor "```json" is left, and nothing is added.
   */
  function Clean(text: string): (r: string)
    ensures !Occurs(r, Fence) && !Occurs(r, JsonFence)
    ensures |r| <= |text|
  {
    FenceFree(ReplaceAll(Strip(text), JsonFence, ""));
    ReplaceAll(ReplaceAll(Strip(text), JsonFence, ""), Fence, "")
  }

  /**
   * The answer the instructions ask the model for, a fenced block with no
   * backtick inside, comes out as the block's body, blank lines around the
   * JSON included: the surrounding whitespace is stripped before the fences
   * are removed, not after.
   */
  lemma CleanUnwrapsFence(body: string)
    requires forall i | 0 <= i < |body| :: body[i] != '`'
    ensures Clean(JsonFence + body + Fence) == body
  {
    var s := JsonFence + body + Fence;
    calc {
      Clean(s);
      ReplaceAll(ReplaceAll(Strip(s), JsonFence, ""), Fence, "");
      { FencedBlockTrimmed(body); }
      ReplaceAll(ReplaceAll(s, JsonFence, ""), Fence, "");
      { FencesRemoved(body); }
      body;
    }
  }

  lemma FencedBlockTrimmed(body: string)
    ensures Strip(JsonFence + body + Fence) == JsonFence + body + Fence
  {
    var s := JsonFence + body + Fence;
    assert s[0] == '`' && s[|s| - 1] == '`';
    StripKeepsTrimmed(s);
  }

  lemma FencesRemoved(body: string)
    requires forall i | 0 <= i < |body| :: body[i] != '`'
    ensures ReplaceAll(ReplaceAll(JsonFence + body + Fence, JsonFence, ""), Fence, "") == body
  {
    OpeningFenceRemoved(body);
    ClosingFenceRemoved(body);
  }

  lemma OpeningFenceRemoved(body: string)
    requires forall i | 0 <= i < |body| :: body[i] != '`'
    ensures ReplaceAll(JsonFence + body + Fence, JsonFence, "") == body + Fence
  {
    var s := JsonFence + body + Fence;
    var rest := body + Fence;
    assert |JsonFence| == 7;
    assert s == JsonFence + rest;
    assert s[..7] == JsonFence && s[7..] == rest;
    assert ReplaceAll(s, JsonFence, "") == ReplaceAll(rest, JsonFence, "");
    ReplaceAllPrefix(body, Fence, JsonFence, "");
    assert ReplaceAll(Fence, JsonFence, "") == Fence;
  }

  lemma ClosingFenceRemoved(body: string)
    requires forall i | 0 <= i < |body| :: body[i] != '`'
    ensures ReplaceAll(body + Fence, Fence, "") == body
  {
    ReplaceAllPrefix(body, Fence, Fence, "");
    assert Fence[..3] == Fence && Fence[3..] == [];
    assert ReplaceAll(Fence, Fence, "") == [];
  }
}
