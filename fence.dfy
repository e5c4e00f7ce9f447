/**
 * `strip_markdown_json`: removes an optional Markdown code fence around the
 * model's reply before it is handed to the JSON decoder. Strings are Python
 * `str` values, i.e. sequences of code points.
 */
module Fence {
  import opened Wrappers

  /** The fence marker. */
  const Fence: string := "```"

  /** Python's `str.isspace()` for one code point (what `str.strip()` removes). */
  predicate IsSpace(c: char) {
    || ('\U{0009}' <= c <= '\U{000D}')
    || ('\U{001C}' <= c <= '\U{0020}')
    || c == '\U{0085}' || c == '\U{00A0}' || c == '\U{1680}'
    || ('\U{2000}' <= c <= '\U{200A}')
    || c == '\U{2028}' || c == '\U{2029}' || c == '\U{202F}' || c == '\U{205F}' || c == '\U{3000}'
  }

  /** `s[k]` is whitespace. */
  predicate SpaceAt(s: string, k: int) {
    0 <= k < |s| && IsSpace(s[k])
  }

  predicate AllSpace(s: string) {
    forall k :: 0 <= k < |s| ==> SpaceAt(s, k)
  }

  /** Neither end of `s` is whitespace (vacuously true of the empty string). */
  predicate Trimmed(s: string) {
    s == [] || (!SpaceAt(s, 0) && !SpaceAt(s, |s| - 1))
  }

  predicate StartsWith(s: string, p: string) {
    |p| <= |s| && s[..|p|] == p
  }

  predicate EndsWith(s: string, p: string) {
    |p| <= |s| && s[|s| - |p|..] == p
  }

  /** The first index at or after `i` that is not whitespace (or `|s|`). */
  function SkipSpace(s: string, i: nat): (n: nat)
    requires i <= |s|
    ensures i <= n <= |s|
    ensures forall k :: i <= k < n ==> SpaceAt(s, k)
    ensures n < |s| ==> !SpaceAt(s, n)
    decreases |s| - i
  {
    if i < |s| && IsSpace(s[i]) then SkipSpace(s, i + 1) else i
  }

  /** The end of `s[lo..j]` once its trailing whitespace is dropped. */
  function SkipSpaceBack(s: string, lo: nat, j: nat): (n: nat)
    requires lo <= j <= |s|
    ensures lo <= n <= j
    ensures forall k :: n <= k < j ==> SpaceAt(s, k)
    ensures lo < n ==> !SpaceAt(s, n - 1)
    decreases j
  {
    if lo < j && IsSpace(s[j - 1]) then SkipSpaceBack(s, lo, j - 1) else j
  }

  /** Where `s.strip()` starts in `s`. */
  function StripStart(s: string): nat {
    SkipSpace(s, 0)
  }

  /** Where `s.strip()` ends in `s`. */
  function StripEnd(s: string): nat {
    SkipSpaceBack(s, StripStart(s), |s|)
  }

  /**
   * `s.strip()`: the slice `s[StripStart(s)..StripEnd(s)]`, where everything
   * before the start and after the end is whitespace and the slice itself
   * neither starts nor ends with whitespace.
   */
  function Strip(s: string): (r: string)
    ensures StripStart(s) <= StripEnd(s) <= |s|
    ensures forall k :: 0 <= k < StripStart(s) ==> SpaceAt(s, k)
    ensures forall k :: StripEnd(s) <= k < |s| ==> SpaceAt(s, k)
    ensures r == s[StripStart(s)..StripEnd(s)]
    ensures Trimmed(r)
  {
    s[StripStart(s)..StripEnd(s)]
  }

  /** The index of the first occurrence of `c` at or after `i`. */
  function IndexFrom(s: string, c: char, i: nat): (r: Option<nat>)
    requires i <= |s|
    ensures r.None? ==> forall k :: i <= k < |s| ==> s[k] != c
    ensures r.Some? ==> i <= r.value < |s| && s[r.value] == c
    ensures r.Some? ==> forall k :: i <= k < r.value ==> s[k] != c
    decreases |s| - i
  {
    if i == |s| then None
    else if s[i] == c then Some(i)
    else IndexFrom(s, c, i + 1)
  }

  /** `s.find(c)`: the index of the first occurrence of `c` in `s`. */
  function IndexOf(s: string, c: char): (r: Option<nat>)
    ensures r.None? <==> c !in s
    ensures r.Some? ==> r.value < |s| && s[r.value] == c
    ensures r.Some? ==> forall k :: 0 <= k < r.value ==> s[k] != c
  {
    IndexFrom(s, c, 0)
  }

  /** `s.split(c, 1)[1]`: everything after the first occurrence of `c`. */
  function AfterFirst(s: string, c: char): (r: string)
    requires c in s
    ensures |r| < |s| && r == s[|s| - |r|..]
    ensures s[|s| - |r| - 1] == c && c !in s[..|s| - |r| - 1]
  {
    var i := IndexOf(s, c).value;
    assert forall k :: 0 <= k < i ==> s[..i][k] == s[k];
    s[i + 1..]
  }

  /** `pat` occurs in `s` starting at index `j`. */
  predicate OccursAt(s: string, pat: string, j: int) {
    0 <= j && j + |pat| <= |s| && s[j..j + |pat|] == pat
  }

  /** The last start `j < end` of an occurrence of `pat` in `s`. */
  function RFindBefore(s: string, pat: string, end: nat): (r: Option<nat>)
    requires end <= |s| + 1
    ensures r.Some? ==> r.value < end && OccursAt(s, pat, r.value)
    ensures r.Some? ==> forall j :: r.value < j < end ==> !OccursAt(s, pat, j)
    ensures r.None? ==> forall j :: 0 <= j < end ==> !OccursAt(s, pat, j)
    decreases end
  {
    if end == 0 then None
    else if OccursAt(s, pat, end - 1) then Some(end - 1)
    else RFindBefore(s, pat, end - 1)
  }

  /** `s.rfind(pat)`: the start of the last occurrence of `pat` in `s`. */
  function RFind(s: string, pat: string): (r: Option<nat>)
    ensures r.Some? ==> OccursAt(s, pat, r.value)
    ensures r.Some? ==> forall j :: r.value < j ==> !OccursAt(s, pat, j)
    ensures r.None? ==> forall j :: !OccursAt(s, pat, j)
  {
    if |s| < |pat| then None else RFindBefore(s, pat, |s| - |pat| + 1)
  }

  /** `s.rsplit(pat, 1)[0]`: everything before the last occurrence of `pat`. */
  function RSplitHead(s: string, pat: string): (r: string)
    ensures |r| <= |s| && r == s[..|r|]
    ensures (forall j :: !OccursAt(s, pat, j)) ==> r == s
    ensures (exists j :: OccursAt(s, pat, j)) ==> OccursAt(s, pat, |r|) && forall j :: |r| < j ==> !OccursAt(s, pat, j)
  {
    match RFind(s, pat)
    case None => s
    case Some(i) => s[..i]
  }

  /** Lines 45-46: drop an opening fence together with the rest of its line. */
  function DropOpening(c: string): (r: string)
    ensures !StartsWith(c, Fence) ==> r == c
    ensures StartsWith(c, Fence) && '\n' in c ==> |r| < |c| && c[|c| - |r| - 1] == '\n' && '\n' !in c[..|c| - |r| - 1]
    ensures StartsWith(c, Fence) && '\n' !in c ==> r == c[3..]
    ensures |r| <= |c| && r == c[|c| - |r|..]
  {
    if StartsWith(c, Fence) then
      (if '\n' in c then AfterFirst(c, '\n') else c[3..])
    else c
  }

  /** Lines 47-48: cut a closing fence at its last occurrence. */
  function DropClosing(c: string): (r: string)
    ensures !EndsWith(c, Fence) ==> r == c
    ensures EndsWith(c, Fence) ==> r == c[..|c| - |Fence|]
    ensures |r| <= |c| && r == c[..|r|]
  {
    if EndsWith(c, Fence) then RSplitHead(c, Fence) else c
  }

  /** `strip_markdown_json(content)`. */
  function StripMarkdownJson(content: string): (r: string)
    ensures Trimmed(r)
    ensures |r| <= |content|
  {
    Strip(DropClosing(DropOpening(Strip(content))))
  }

  // ---------------------------------------------------------------------
  // Properties of Strip
  // ---------------------------------------------------------------------

  /** Stripping whitespace padding gives back exactly the trimmed core. */
  lemma StripPadded(p: string, r: string, q: string)
    requires AllSpace(p) && AllSpace(q) && Trimmed(r)
    ensures Strip(p + r + q) == r
  {
    var s := p + r + q;
    forall k | 0 <= k < |p| ensures SpaceAt(s, k) {
      assert SpaceAt(p, k) && s[k] == p[k];
    }
    forall k | |p| + |r| <= k < |s| ensures SpaceAt(s, k) {
      assert SpaceAt(q, k - |p| - |r|) && s[k] == q[k - |p| - |r|];
    }
    if r != [] {
      assert s[|p|] == r[0] && s[|p| + |r| - 1] == r[|r| - 1];
      assert !SpaceAt(s, |p|) && !SpaceAt(s, |p| + |r| - 1);
      assert StripStart(s) == |p|;
      assert StripEnd(s) == |p| + |r|;
      assert s[|p|..|p| + |r|] == r;
    }
  }

  /** `strip()` is idempotent. */
  lemma StripIdempotent(s: string)
    ensures Strip(Strip(s)) == Strip(s)
  {
    var r := Strip(s);
    StripPadded([], r, []);
    assert [] + r + [] == r;
  }

  /** A trimmed string is its own strip. */
  lemma StripTrimmed(s: string)
    requires Trimmed(s)
    ensures Strip(s) == s
  {
    StripPadded([], s, []);
    assert [] + s + [] == s;
  }

  // ---------------------------------------------------------------------
  // Properties of StripMarkdownJson
  // ---------------------------------------------------------------------

  /**
   * Without a fence at either end of the trimmed text, the result is the
   * trimmed text itself: backticks elsewhere are left alone.
   */
  lemma NoFenceIsStrip(content: string)
    requires !StartsWith(Strip(content), Fence) && !EndsWith(Strip(content), Fence)
    ensures StripMarkdownJson(content) == Strip(content)
  {
    StripIdempotent(content);
  }

  /** Clean input (trimmed, unfenced) is a fixed point. */
  lemma CleanInputIsFixed(s: string)
    requires Trimmed(s) && !StartsWith(s, Fence) && !EndsWith(s, Fence)
    ensures StripMarkdownJson(s) == s
  {
    StripTrimmed(s);
    NoFenceIsStrip(s);
  }

  /** A slice of a slice of `s` is a slice of `s`. */
  lemma SliceOfSlice(s: string, i: nat, j: nat, m: string, a: nat, b: nat)
    requires i <= j <= |s| && m == s[i..j] && a <= b <= |m|
    ensures i + b <= j && m[a..b] == s[i + a..i + b]
  {
    assert forall k :: 0 <= k < b - a ==> m[a..b][k] == s[i + a + k];
  }

  /** `Strip` of a slice `s[i..j]` is a slice of `s`. */
  lemma StripSlice(s: string, i: nat, j: nat) returns (i': nat, j': nat)
    requires i <= j <= |s|
    ensures i <= i' <= j' <= j && Strip(s[i..j]) == s[i'..j']
  {
    var m := s[i..j];
    SliceOfSlice(s, i, j, m, StripStart(m), StripEnd(m));
    i', j' := i + StripStart(m), i + StripEnd(m);
  }

  /** `DropOpening` of a slice `s[i..j]` is a slice of `s`. */
  lemma DropOpeningSlice(s: string, i: nat, j: nat) returns (i': nat)
    requires i <= j <= |s|
    ensures i <= i' <= j && DropOpening(s[i..j]) == s[i'..j]
  {
    var m := s[i..j];
    var r := DropOpening(m);
    SliceOfSlice(s, i, j, m, |m| - |r|, |m|);
    i' := i + |m| - |r|;
  }

  /** `DropClosing` of a slice `s[i..j]` is a slice of `s`. */
  lemma DropClosingSlice(s: string, i: nat, j: nat) returns (j': nat)
    requires i <= j <= |s|
    ensures i <= j' <= j && DropClosing(s[i..j]) == s[i..j']
  {
    var m := s[i..j];
    var r := DropClosing(m);
    SliceOfSlice(s, i, j, m, 0, |r|);
    j' := i + |r|;
  }

  /** The result is one contiguous slice `content[i..j]` of the input. */
  lemma StripMarkdownJsonSlice(content: string) returns (i: nat, j: nat)
    ensures i <= j <= |content| && StripMarkdownJson(content) == content[i..j]
  {
    assert content[0..|content|] == content;
    var i0, j0 := StripSlice(content, 0, |content|);
    var i1 := DropOpeningSlice(content, i0, j0);
    var j2 := DropClosingSlice(content, i1, j0);
    i, j := StripSlice(content, i1, j2);
  }

  /** Dropping the opening line of `Fence + tag + "\n" + rest`. */
  lemma DropOpeningLine(tag: string, rest: string)
    requires '\n' !in tag
    ensures DropOpening(Fence + tag + "\n" + rest) == rest
  {
    var head := Fence + tag;
    var s := head + "\n" + rest;
    assert s == Fence + tag + "\n" + rest;
    assert s[..3] == Fence;
    var n := |head|;
    assert s[n] == '\n';
    assert '\n' !in head;
    assert s[..n] == head;
    var k := IndexOf(s, '\n').value;
    assert k == n;
    assert s[n + 1..] == rest;
  }

  /** Dropping the closing fence of `body + Fence`. */
  lemma DropClosingFence(body: string)
    ensures DropClosing(body + Fence) == body
  {
    var c := body + Fence;
    assert c[|c| - 3..] == Fence;
    assert c[..|body|] == body;
  }

  /**
   * A fenced block with an optional language tag on the opening line comes
   * back as its trimmed body.
   */
  lemma FencedBlock(tag: string, body: string)
    requires '\n' !in tag
    ensures StripMarkdownJson(Fence + tag + "\n" + body + Fence) == Strip(body)
  {
    var s := Fence + tag + "\n" + body + Fence;
    assert s == Fence + tag + "\n" + (body + Fence);
    assert s[0] == '`' && s[|s| - 1] == '`';
    StripTrimmed(s);
    DropOpeningLine(tag, body + Fence);
    DropClosingFence(body);
  }

  /** A slice inside `x` is the same slice of any extension of `x`. */
  lemma SliceOfExtension(x: string, q: string, i: nat, j: nat)
    requires i <= j <= |x|
    ensures (x + q)[i..j] == x[i..j]
  {
  }

  /** The whitespace around `Strip(x)` stays whitespace in `x + q`. */
  lemma PaddingOfExtension(x: string, q: string)
    requires AllSpace(q)
    ensures forall k :: 0 <= k < StripStart(x) ==> SpaceAt(x + q, k)
    ensures forall k :: StripEnd(x) <= k < |x + q| ==> SpaceAt(x + q, k)
  {
    var y := x + q;
    forall k | 0 <= k < |y| && (k < StripStart(x) || StripEnd(x) <= k) ensures SpaceAt(y, k) {
      if k < |x| { assert SpaceAt(x, k) && y[k] == x[k]; }
      else { assert SpaceAt(q, k - |x|) && y[k] == q[k - |x|]; }
    }
  }

  /** Appending whitespace does not change the strip. */
  lemma StripAppendSpace(x: string, q: string)
    requires AllSpace(q)
    ensures Strip(x + q) == Strip(x)
  {
    var y := x + q;
    var i, j := StripStart(x), StripEnd(x);
    PaddingOfExtension(x, q);
    if i < j {
      assert !SpaceAt(y, i) && !SpaceAt(y, j - 1) by {
        assert !SpaceAt(x, i) && !SpaceAt(x, j - 1) && y[i] == x[i] && y[j - 1] == x[j - 1];
      }
      assert StripStart(y) == i;
      assert StripEnd(y) == j;
      SliceOfExtension(x, q, i, j);
    } else {
      assert StripStart(y) == |y|;
    }
  }

  /** `Fence + tag + "\n" + x + "\n" + Fence`: `x` fenced as a block tagged `tag`. */
  function Fenced(tag: string, x: string): string {
    Fence + tag + "\n" + (x + "\n") + Fence
  }

  /** A reply fenced as a block (for example a `json` block) comes back as its trimmed body. */
  lemma FencedReply(tag: string, x: string)
    requires '\n' !in tag
    ensures StripMarkdownJson(Fenced(tag, x)) == Strip(x)
  {
    FencedBlock(tag, x + "\n");
    StripAppendSpace(x, "\n");
  }

  /** A fenced block is itself trimmed. */
  lemma FencedIsTrimmed(tag: string, x: string)
    ensures Trimmed(Fenced(tag, x))
  {
    var s := Fenced(tag, x);
    assert s[0] == '`' && s[|s| - 1] == '`';
  }

  /**
   * `strip_markdown_json` is not idempotent: on a doubly fenced reply each
   * call removes one fence.
   */
  lemma NotIdempotent(x: string)
    requires Trimmed(x)
    ensures var once := StripMarkdownJson(Fenced("", Fenced("", x)));
      && once == Fenced("", x)
      && StripMarkdownJson(once) == x
      && StripMarkdownJson(once) != once
  {
    FencedReply("", Fenced("", x));
    FencedIsTrimmed("", x);
    StripTrimmed(Fenced("", x));
    FencedReply("", x);
    StripTrimmed(x);
  }
}
