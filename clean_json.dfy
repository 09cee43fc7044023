/**
 * `cleanJsonString`, shared word for word by both service files: it takes
 * the content of the first Markdown code fence, if there is one, and then
 * the span from the first `{` to the last `}`, if there is one.
 *
 * The fence is found with the regular expression
 * /```(?:json)?\s*([\s\S]*?)\s*```/. Its JavaScript matching is spelled out
 * here. It matches at the first "```" of the text, provided another "```"
 * starts at least three characters later. A `json` tag right after the
 * opening fence is skipped, because the optional group is greedy. Then all
 * white space is skipped. Because the capture group is lazy, it ends at the
 * first "```" after that point, minus the white space in front of it.
 */
module CleanJson {

  import opened Types
  import opened Text

  const Fence: string := "```"
  const JsonTag: string := "json"

  /** No "```" occurs anywhere in `t`. */
  ghost predicate NoFence(t: string) {
    forall i :: !OccursAt(t, Fence, i)
  }

  /** Every character of an occurrence of the fence is a back-tick. */
  lemma FenceIsTicks(s: string)
    ensures forall i :: OccursAt(s, Fence, i) ==> s[i] == '`' && s[i + 1] == '`' && s[i + 2] == '`'
  {
    forall i | OccursAt(s, Fence, i) ensures s[i] == '`' && s[i + 1] == '`' && s[i + 2] == '`' {
      assert s[i..i + 3] == Fence;
      assert s[i] == s[i..i + 3][0] && s[i + 1] == s[i..i + 3][1] && s[i + 2] == s[i..i + 3][2];
    }
  }

  /** No fence starts where there is no back-tick. */
  lemma NoTickNoFence(s: string, lo: int, hi: int)
    requires 0 <= lo <= hi <= |s|
    requires forall i :: lo <= i < hi ==> s[i] != '`'
    ensures forall i :: lo <= i < hi ==> !OccursAt(s, Fence, i)
  {
    FenceIsTicks(s);
  }

  /** Find stops at the first occurrence. */
  lemma FindAt(s: string, pat: string, from: nat, r: nat)
    requires from <= r && OccursAt(s, pat, r)
    requires forall i :: from <= i < r ==> !OccursAt(s, pat, i)
    ensures Find(s, pat, from) == r
  {
  }

  /** The capture group of the fence expression, or None when it does not match. */
  function FencedBody(s: string): Option<string> {
    var p := Find(s, Fence, 0);
    if p == -1 then None
    else
      var q := Find(s, Fence, p + 3);
      if q == -1 then None
      else
        var j := if OccursAt(s, JsonTag, p + 3) then p + 7 else p + 3;
        TagBeforeClosingFence(s, p, q);
        var k := SkipSpace(s, j);
        ClosingFenceFollowsBody(s, q, j, k);
        Some(s[k..BackSpace(s, k, q)])
  }

  /** A `json` tag has no back-tick, so the closing fence comes after it. */
  lemma TagBeforeClosingFence(s: string, p: nat, q: nat)
    requires OccursAt(s, Fence, q) && p + 3 <= q
    ensures OccursAt(s, JsonTag, p + 3) ==> p + 7 <= q
  {
    FenceIsTicks(s);
    if OccursAt(s, JsonTag, p + 3) {
      assert forall m :: p + 3 <= m < p + 7 ==> s[m] == s[p + 3..p + 7][m - p - 3];
    }
  }

  /** The closing fence is not inside the white space that follows the tag. */
  lemma ClosingFenceFollowsBody(s: string, q: nat, j: nat, k: nat)
    requires OccursAt(s, Fence, q) && j <= q && k == SkipSpace(s, j)
    ensures k <= q
  {
    FenceIsTicks(s);
  }

  /** The string the brace search works on: the fenced content, or the whole reply. */
  function Working(s: string): string {
    FencedBody(s).GetOr(s)
  }

  /** There is a `{` somewhere before a `}`. */
  ghost predicate HasBracePair(w: string) {
    exists i, j :: 0 <= i < j < |w| && w[i] == '{' && w[j] == '}'
  }

  /** `r` runs from the first `{` of `w`, at `f`, to its last `}`, at `l`. */
  ghost predicate BraceSpanAt(w: string, r: string, f: int, l: int) {
    0 <= f < l < |w| && w[f] == '{' && w[l] == '}' && r == w[f..l + 1]
    && (forall k :: 0 <= k < f ==> w[k] != '{') && (forall k :: l < k < |w| ==> w[k] != '}')
  }

  /** cleanJsonString. Its contract: "{}" for the empty reply; otherwise a
      piece of the reply, which is the first-`{`-to-last-`}` span of the
      working string when that has a `{` before a `}`, and the working string
      itself when not. */
  function CleanJsonString(str: string): (r: string)
    ensures str == "" ==> r == "{}"
    ensures str != "" ==> IsSubstring(r, str)
    ensures str != "" && HasBracePair(Working(str)) ==>
      exists f, l :: BraceSpanAt(Working(str), r, f, l)
    ensures str != "" && !HasBracePair(Working(str)) ==> r == Working(str)
  {
    if str == "" then "{}"
    else
      var w := Working(str);
      WorkingIsSubstring(str);
      BraceSliceIsSubstring(w, str);
      BraceSlice(w)
  }

  /** The brace search on the working string: the first-`{`-to-last-`}`
      span when there is a `{` before a `}`, the string itself when not. */
  function BraceSlice(w: string): (r: string)
    ensures HasBracePair(w) ==> exists f, l :: BraceSpanAt(w, r, f, l)
    ensures !HasBracePair(w) ==> r == w
  {
    var first := IndexOf(w, '{');
    var last := LastIndexOf(w, '}');
    BraceSearch(w, first, last);
    if first != -1 && last != -1 && last > first then w[first..last + 1] else w
  }

  /** The brace span of a piece of the reply is a piece of the reply. */
  lemma BraceSliceIsSubstring(w: string, s: string)
    requires IsSubstring(w, s)
    ensures IsSubstring(BraceSlice(w), s)
  {
    if HasBracePair(w) {
      var f, l :| BraceSpanAt(w, BraceSlice(w), f, l);
      SubstringOfSubstring(BraceSlice(w), w, s, f);
    }
  }

  /** The test `firstBrace !== -1 && lastBrace !== -1 && lastBrace > firstBrace`
      holds exactly when there is a `{` before a `}`, and the slice it then
      takes is the brace span. */
  lemma BraceSearch(w: string, first: int, last: int)
    requires first == IndexOf(w, '{') && last == LastIndexOf(w, '}')
    ensures (first != -1 && last != -1 && last > first) <==> HasBracePair(w)
    ensures first != -1 && last != -1 && last > first ==> BraceSpanAt(w, w[first..last + 1], first, last)
  {
    if HasBracePair(w) {
      var i, j :| 0 <= i < j < |w| && w[i] == '{' && w[j] == '}';
      assert first <= i && j <= last;
    }
  }

  lemma WorkingIsSubstring(s: string)
    ensures IsSubstring(Working(s), s)
  {
    if FencedBody(s).None? {
      assert OccursAt(s, s, 0);
    } else {
      var k, e := FencedBodyBounds(s);
      assert OccursAt(s, s[k..e], k);
    }
  }

  /** Where the capture lies: from `k`, past the white space after the
      opening fence and tag, to `e`, before the white space that precedes
      the closing fence; there is no fence in between. */
  lemma FencedBodyBounds(s: string) returns (k: nat, e: nat)
    requires FencedBody(s).Some?
    ensures k <= e <= |s| && FencedBody(s).value == s[k..e]
    ensures forall i :: k <= i < e ==> !OccursAt(s, Fence, i)
    ensures k < e ==> !IsSpace(s[k]) && !IsSpace(s[e - 1])
  {
    var p := Find(s, Fence, 0);
    var q := Find(s, Fence, p + 3);
    var j := if OccursAt(s, JsonTag, p + 3) then p + 7 else p + 3;
    TagBeforeClosingFence(s, p, q);
    k := SkipSpace(s, j);
    ClosingFenceFollowsBody(s, q, j, k);
    e := BackSpace(s, k, q);
  }

  lemma SubstringOfSubstring(t: string, w: string, s: string, at: nat)
    requires IsSubstring(w, s) && OccursAt(w, t, at)
    ensures IsSubstring(t, s)
  {
    var i :| OccursAt(s, w, i);
    assert forall m :: 0 <= m < |t| ==> s[i + at + m] == s[i..i + |w|][at + m] == w[at + m] == t[m];
    assert s[i + at..i + at + |t|] == t;
    assert OccursAt(s, t, i + at);
  }

  /** The fenced content is a piece of the reply with no fence inside it and
      no white space at either end. */
  lemma FencedBodyShape(s: string)
    requires FencedBody(s).Some?
    ensures var b := FencedBody(s).value;
      IsSubstring(b, s) && NoFence(b) && Trimmed(b)
  {
    var k, e := FencedBodyBounds(s);
    var b := s[k..e];
    assert OccursAt(s, b, k);
    NoFenceInside(s, k, e);
    if |b| > 0 {
      assert b[0] == s[k] && b[|b| - 1] == s[e - 1];
    }
  }

  /** A piece of `s` in which no fence starts holds no fence. */
  lemma NoFenceInside(s: string, k: nat, e: nat)
    requires k <= e <= |s|
    requires forall i :: k <= i < e ==> !OccursAt(s, Fence, i)
    ensures NoFence(s[k..e])
  {
    var b := s[k..e];
    forall i | 0 <= i && i + 3 <= |b| ensures !OccursAt(b, Fence, i) {
      assert !OccursAt(s, Fence, k + i);
      SliceOfSlice(s, k, e, i, i + 3);
    }
  }

  lemma SliceOfSlice(s: string, k: nat, e: nat, i: nat, j: nat)
    requires k <= e <= |s| && i <= j <= e - k
    ensures s[k..e][i..j] == s[k + i..k + j]
  {
    forall m | 0 <= m < j - i ensures s[k..e][i..j][m] == s[k + i..k + j][m] {
    }
  }

  /** Where the block may start after an opening fence at `p`: past the
      `json` tag when one follows the fence, right after the fence otherwise. */
  function BlockStart(s: string, p: nat): (j: nat)
    ensures j == p + 3 || (j == p + 7 && OccursAt(s, JsonTag, p + 3))
    ensures OccursAt(s, JsonTag, p + 3) ==> j == p + 7
  {
    if OccursAt(s, JsonTag, p + 3) then p + 7 else p + 3
  }

  /** The fence expression in terms of positions: an opening fence at `p`
      with no fence starting before it and an optional `json` tag after it,
      white space from the block start `j` up to `a`, a trimmed block up to
      `d` in which no fence starts, white space up to a closing fence at `c`.
      The capture is the block. */
  lemma CaptureAt(s: string, p: nat, j: nat, a: nat, d: nat, c: nat)
    requires j == BlockStart(s, p) && j <= a <= d <= c
    requires OccursAt(s, Fence, p) && OccursAt(s, Fence, c)
    requires forall i :: 0 <= i < p ==> !OccursAt(s, Fence, i)
    requires forall i :: j <= i < a ==> IsSpace(s[i])
    requires forall i :: a <= i < d ==> !OccursAt(s, Fence, i)
    requires forall i :: d <= i < c ==> IsSpace(s[i])
    requires Trimmed(s[a..d])
    ensures FencedBody(s) == Some(s[a..d])
  {
    FencesAt(s, p, j, a, d, c);
    BlockBounds(s, j, a, d, c);
  }

  /** The two fences of `CaptureAt` are the ones the expression finds. */
  lemma FencesAt(s: string, p: nat, j: nat, a: nat, d: nat, c: nat)
    requires j == BlockStart(s, p) && j <= a <= d <= c
    requires OccursAt(s, Fence, p) && OccursAt(s, Fence, c)
    requires forall i :: 0 <= i < p ==> !OccursAt(s, Fence, i)
    requires forall i :: j <= i < a ==> IsSpace(s[i])
    requires forall i :: a <= i < d ==> !OccursAt(s, Fence, i)
    requires forall i :: d <= i < c ==> IsSpace(s[i])
    ensures Find(s, Fence, 0) == p && Find(s, Fence, p + 3) == c
  {
    FindAt(s, Fence, 0, p);
    assert forall i :: p + 3 <= i < a ==> s[i] != '`' by {
      forall i | p + 3 <= i < a ensures s[i] != '`' {
        if i < j { assert s[i] == s[p + 3..p + 7][i - p - 3]; }
      }
    }
    NoTickNoFence(s, p + 3, a);
    NoTickNoFence(s, d, c);
    FindAt(s, Fence, p + 3, c);
  }

  /** Skipping white space from `j` and backing off it from `c` lands on the block. */
  lemma BlockBounds(s: string, j: nat, a: nat, d: nat, c: nat)
    requires j <= a <= d <= c && OccursAt(s, Fence, c)
    requires forall i :: j <= i < a ==> IsSpace(s[i])
    requires forall i :: d <= i < c ==> IsSpace(s[i])
    requires Trimmed(s[a..d])
    ensures var k := SkipSpace(s, j); k <= c && s[k..BackSpace(s, k, c)] == s[a..d]
  {
    if a < d {
      assert s[a] == s[a..d][0] && s[d - 1] == s[a..d][d - a - 1];
      SkipSpaceStops(s, j, a);
      BackSpaceStops(s, a, d, c);
    } else {
      assert s[c] == s[c..c + 3][0];
      assert forall i :: j <= i < c ==> IsSpace(s[i]);
      SkipSpaceStops(s, j, c);
    }
  }

  /** A reply whose first fence opens a `json` block: the block's content,
      white space removed, is what the fence expression captures. The text
      before the fence and the block may hold back-ticks, as long as no
      fence starts in them; `pre + "``"` and `body + ws2 + "``"` also rule
      out a fence that the ticks of the next real fence would complete. */
  lemma FirstBlockIsCaptured(pre: string, ws1: string, body: string, ws2: string, post: string)
    requires NoFence(pre + "``") && NoFence(body + ws2 + "``")
    requires AllSpace(ws1) && AllSpace(ws2) && Trimmed(body)
    ensures FencedBody(pre + Fence + JsonTag + ws1 + body + ws2 + Fence + post) == Some(body)
  {
    var s := pre + Fence + JsonTag + ws1 + body + ws2 + Fence + post;
    var p := |pre|;
    assert pre + Fence + JsonTag == pre + (Fence + JsonTag);
    var a, d, c := Layout(s, pre, Fence + JsonTag, ws1, body, ws2, post);
    assert s[p..p + 3] == (Fence + JsonTag)[..3];
    assert s[p + 3..p + 7] == (Fence + JsonTag)[3..];
    CaptureAt(s, p, p + 7, a, d, c);
  }

  /** A reply whose first fence opens an untagged block: the block's
      content, white space removed, is captured too. A block that starts
      right after the fence with the letters `json` would lose them to the
      optional tag, so it has to start with white space or with something
      else. */
  lemma FirstUntaggedBlockIsCaptured(pre: string, ws1: string, body: string, ws2: string, post: string)
    requires NoFence(pre + "``") && NoFence(body + ws2 + "``")
    requires AllSpace(ws1) && AllSpace(ws2) && Trimmed(body)
    requires |ws1| > 0 || !OccursAt(body, JsonTag, 0)
    ensures FencedBody(pre + Fence + ws1 + body + ws2 + Fence + post) == Some(body)
  {
    var s := pre + Fence + ws1 + body + ws2 + Fence + post;
    var p := |pre|;
    var a, d, c := Layout(s, pre, Fence, ws1, body, ws2, post);
    UntaggedStart(s, p, ws1, body, c);
    CaptureAt(s, p, p + 3, a, d, c);
  }

  /** Where the pieces of a fenced reply lie: the block from `a` to `d`,
      the closing fence at `c`; no fence starts before the opening one or
      inside the block. */
  lemma Layout(s: string, pre: string, head: string, ws1: string, body: string, ws2: string, post: string)
      returns (a: nat, d: nat, c: nat)
    requires s == pre + head + ws1 + body + ws2 + Fence + post
    requires |head| >= 3 && head[..3] == Fence
    requires NoFence(pre + "``") && NoFence(body + ws2 + "``") && AllSpace(ws1) && AllSpace(ws2)
    ensures a == |pre| + |head| + |ws1| && d == a + |body| && c == d + |ws2|
    ensures s[|pre|..|pre| + |head|] == head && OccursAt(s, Fence, c) && s[a..d] == body
    ensures forall i :: 0 <= i < |pre| ==> !OccursAt(s, Fence, i)
    ensures forall i :: |pre| + |head| <= i < a ==> s[i] == ws1[i - |pre| - |head|] && IsSpace(s[i])
    ensures forall i :: a <= i < d ==> s[i] == body[i - a] && !OccursAt(s, Fence, i)
    ensures forall i :: d <= i < c ==> IsSpace(s[i])
  {
    var p := |pre|;
    a := p + |head| + |ws1|;
    d := a + |body|;
    c := d + |ws2|;
    assert s[..p] == pre;
    assert s[p..p + |head|] == head;
    assert s[p + |head|..a] == ws1;
    assert s[a..d] == body;
    assert s[d..c] == ws2;
    assert s[c..c + 3] == Fence;
    SliceChars(s, p + |head|, a, ws1);
    SliceChars(s, a, d, body);
    SliceChars(s, d, c, ws2);
    FenceFreeBefore(s, pre, head);
    FenceFreeBlock(s, a, d, c, body, ws2);
  }

  /** No fence starts in the text before an opening fence. */
  lemma FenceFreeBefore(s: string, pre: string, head: string)
    requires |pre| + |head| <= |s| && s[..|pre|] == pre && s[|pre|..|pre| + |head|] == head
    requires |head| >= 3 && head[..3] == Fence && NoFence(pre + "``")
    ensures forall i :: 0 <= i < |pre| ==> !OccursAt(s, Fence, i)
  {
    var p := |pre|;
    TicksAfter(s, p, p + |head|, head);
    assert s[0..p + 2] == s[..p] + s[p..p + 2];
    FenceFreeWindow(s, 0, pre + "``");
  }

  /** No fence starts inside the block that the closing fence ends. */
  lemma FenceFreeBlock(s: string, a: nat, d: nat, c: nat, body: string, ws2: string)
    requires a <= d <= c && OccursAt(s, Fence, c) && s[a..d] == body && s[d..c] == ws2
    requires NoFence(body + ws2 + "``")
    ensures forall i :: a <= i < d ==> !OccursAt(s, Fence, i)
  {
    TicksAfter(s, c, c + 3, Fence);
    assert s[a..c + 2] == s[a..d] + s[d..c] + s[c..c + 2];
    FenceFreeWindow(s, a, body + ws2 + "``");
  }

  /** Two back-ticks open a slice that starts with a fence. */
  lemma TicksAfter(s: string, lo: nat, hi: nat, x: string)
    requires lo <= hi <= |s| && s[lo..hi] == x && |x| >= 3 && x[..3] == Fence
    ensures s[lo..lo + 2] == "``"
  {
    assert s[lo] == x[0] && s[lo + 1] == x[1];
    assert x[0] == x[..3][0] && x[1] == x[..3][1];
  }

  /** A slice in which no fence starts leaves no fence starting at the
      same places of the text. */
  lemma FenceFreeWindow(s: string, lo: nat, t: string)
    requires lo + |t| <= |s| && s[lo..lo + |t|] == t && NoFence(t)
    ensures forall i :: lo <= i && i + 3 <= lo + |t| ==> !OccursAt(s, Fence, i)
  {
    forall i | lo <= i && i + 3 <= lo + |t| ensures !OccursAt(s, Fence, i) {
      SliceOfSlice(s, lo, lo + |t|, i - lo, i - lo + 3);
      assert !OccursAt(t, Fence, i - lo);
    }
  }

  /** The characters of a slice are the characters of the text at the same
      places. */
  lemma SliceChars(s: string, lo: nat, hi: nat, x: string)
    requires lo <= hi <= |s| && s[lo..hi] == x
    ensures forall i :: lo <= i < hi ==> s[i] == x[i - lo]
  {
    assert forall i :: lo <= i < hi ==> s[i] == s[lo..hi][i - lo];
  }

  /** The untagged block of `FirstUntaggedBlockIsCaptured` is not read as a tag. */
  lemma UntaggedStart(s: string, p: nat, ws1: string, body: string, c: nat)
    requires p + 3 + |ws1| + |body| <= c && OccursAt(s, Fence, c)
    requires AllSpace(ws1) && (|ws1| > 0 || !OccursAt(body, JsonTag, 0))
    requires forall i :: p + 3 <= i < p + 3 + |ws1| ==> s[i] == ws1[i - p - 3]
    requires forall i :: p + 3 + |ws1| <= i < p + 3 + |ws1| + |body| ==> s[i] == body[i - p - 3 - |ws1|]
    requires forall i :: p + 3 + |ws1| + |body| <= i < c ==> IsSpace(s[i])
    ensures !OccursAt(s, JsonTag, p + 3)
  {
    if p + 7 <= |s| {
      var m: nat;
      if |ws1| > 0 {
        m := 0;
        assert s[p + 3] == ws1[0] && IsSpace(ws1[0]);
      } else if |body| >= 4 {
        assert body[0..4] != JsonTag;
        m :| m < 4 && body[0..4][m] != JsonTag[m];
        assert s[p + 3 + m] == body[m];
      } else {
        m := |body|;
        FenceIsTicks(s);
        assert IsSpace(s[p + 3 + m]) || s[p + 3 + m] == '`';
      }
      assert s[p + 3..p + 7][m] != JsonTag[m];
    }
  }

  /** A JSON object in a `json` fence, preceded by prose in which no fence
      starts: cleaning gives back exactly the object. */
  lemma {:induction false} CleanFencedObject(pre: string, ws1: string, obj: string, ws2: string, post: string)
    requires NoFence(pre + "``") && NoFence(obj + ws2 + "``")
    requires AllSpace(ws1) && AllSpace(ws2)
    requires |obj| >= 2 && obj[0] == '{' && obj[|obj| - 1] == '}'
    ensures CleanJsonString(pre + Fence + JsonTag + ws1 + obj + ws2 + Fence + post) == obj
  {
    var s := pre + Fence + JsonTag + ws1 + obj + ws2 + Fence + post;
    FirstBlockIsCaptured(pre, ws1, obj, ws2, post);
    assert Working(s) == obj;
    assert IndexOf(obj, '{') == 0;
    assert LastIndexOf(obj, '}') == |obj| - 1;
    assert obj[0..|obj|] == obj;
  }

  /** A JSON object in a reply with no `{` before it, no `}` after it and no
      fence anywhere (inline back-ticks are allowed): cleaning gives back
      exactly the object. */
  lemma {:induction false} CleanBareObject(pre: string, obj: string, post: string)
    requires '{' !in pre && '}' !in post && NoFence(pre + obj + post)
    requires |obj| >= 2 && obj[0] == '{' && obj[|obj| - 1] == '}'
    ensures CleanJsonString(pre + obj + post) == obj
  {
    var s := pre + obj + post;
    assert Find(s, Fence, 0) == -1;
    assert Working(s) == s;
    assert forall k :: 0 <= k < |pre| ==> s[k] == pre[k];
    assert s[|pre|] == obj[0];
    assert IndexOf(s, '{') == |pre|;
    var l := |pre| + |obj| - 1;
    assert forall k :: l < k < |s| ==> s[k] == post[k - l - 1];
    assert s[l] == obj[|obj| - 1];
    assert LastIndexOf(s, '}') == l;
    assert s[|pre|..l + 1] == obj;
  }
}
