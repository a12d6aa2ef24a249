/** `clean_output` of app.py: trimming of whitespace and removal of one
    Markdown code fence at each end of a language model's answer. */
module Text {

  /** The Markdown code fence. */
  const Fence: string := "```"

  /** The language tag that may follow an opening fence. */
  const JsonTag: string := "json"

  /** Python's `str.isspace`, which is also the set of characters that
      `str.strip()` removes and that `\s` matches in a `str` pattern. */
  predicate IsSpace(c: char) {
    || ('\t' <= c <= '\r')
    || ('\U{1C}' <= c <= ' ')
    || c == '\U{85}'
    || c == '\U{A0}'
    || c == '\U{1680}'
    || ('\U{2000}' <= c <= '\U{200A}')
    || c == '\U{2028}'
    || c == '\U{2029}'
    || c == '\U{202F}'
    || c == '\U{205F}'
    || c == '\U{3000}'
  }

  predicate StartsWith(s: string, prefix: string) {
    |prefix| <= |s| && s[..|prefix|] == prefix
  }

  predicate EndsWith(s: string, suffix: string) {
    |suffix| <= |s| && s[|s| - |suffix|..] == suffix
  }

  /** Neither begins nor ends with whitespace. */
  predicate IsTrimmed(s: string) {
    s == [] || (!IsSpace(s[0]) && !IsSpace(s[|s| - 1]))
  }

  /** How far a greedy `\s*` reaches from `i`: the first index at or after
      `i` that does not hold whitespace, or the end. */
  function SkipSpaces(s: string, i: nat): (j: nat)
    requires i <= |s|
    ensures i <= j <= |s|
    ensures forall k :: i <= k < j ==> IsSpace(s[k])
    ensures j == |s| || !IsSpace(s[j])
    decreases |s| - i
  {
    if i < |s| && IsSpace(s[i]) then SkipSpaces(s, i + 1) else i
  }

  /** Where the whitespace run that ends at `j` begins, looking no further
      back than `lo`: the leftmost start of a greedy `\s*` ending at `j`. */
  function SkipSpacesBack(s: string, lo: nat, j: nat): (i: nat)
    requires lo <= j <= |s|
    ensures lo <= i <= j
    ensures forall k :: i <= k < j ==> IsSpace(s[k])
    ensures i == lo || !IsSpace(s[i - 1])
    decreases j - lo
  {
    if lo < j && IsSpace(s[j - 1]) then SkipSpacesBack(s, lo, j - 1) else j
  }

  /** `str.strip()`: the slice of `s` between its leading and its trailing
      whitespace, everything outside it being whitespace. */
  function Strip(s: string): (r: string)
    ensures IsTrimmed(r)
    ensures var i := SkipSpaces(s, 0);
      && i + |r| <= |s|
      && r == s[i..i + |r|]
      && (forall k :: i + |r| <= k < |s| ==> IsSpace(s[k]))
  {
    var i := SkipSpaces(s, 0);
    s[i..SkipSpacesBack(s, i, |s|)]
  }

  /** How much of an opening fence `^```(?:json)?` takes: the tag is taken
      whenever it is there, whatever follows it. */
  function OpenerLength(s: string): nat {
    if StartsWith(s, Fence + JsonTag) then |Fence + JsonTag| else |Fence|
  }

  /** `re.sub(r"^```(?:json)?\s*", "", s)`: the pattern is anchored at the
      start, so it removes at most one fence, its tag and the whitespace
      after them, and nothing beyond the first non-space character. */
  function StripLeadingFence(s: string): (r: string)
    ensures |r| <= |s| && r == s[|s| - |r|..]
    ensures !StartsWith(s, Fence) ==> r == s
    ensures StartsWith(s, Fence) ==>
      && OpenerLength(s) + |r| <= |s|
      && (forall k :: OpenerLength(s) <= k < |s| - |r| ==> IsSpace(s[k]))
      && (r == [] || !IsSpace(r[0]))
  {
    if StartsWith(s, Fence) then s[SkipSpaces(s, OpenerLength(s))..] else s
  }

  /** `re.sub(r"\s*```$", "", t)`. Without MULTILINE, `$` matches at the end
      of the text and also just before a newline that ends it, so a fence
      followed by one final newline is removed too and the newline kept.
      The leftmost match begins where the whitespace run before the fence
      begins; at most one match exists. */
  function StripTrailingFence(t: string): (r: string)
    ensures EndsWith(t, Fence) ==>
      && |r| + |Fence| <= |t|
      && r == t[..|r|]
      && (forall k :: |r| <= k < |t| - |Fence| ==> IsSpace(t[k]))
      && (r == [] || !IsSpace(r[|r| - 1]))
    ensures !EndsWith(t, Fence) && EndsWith(t, Fence + "\n") ==>
      && 1 <= |r| && |r| + |Fence| <= |t|
      && r == t[..|r| - 1] + "\n"
      && (forall k :: |r| - 1 <= k < |t| - |Fence| - 1 ==> IsSpace(t[k]))
      && (|r| == 1 || !IsSpace(r[|r| - 2]))
    ensures !EndsWith(t, Fence) && !EndsWith(t, Fence + "\n") ==> r == t
  {
    if EndsWith(t, Fence) then
      t[..SkipSpacesBack(t, 0, |t| - |Fence|)]
    else if EndsWith(t, Fence + "\n") then
      var p := t[..SkipSpacesBack(t, 0, |t| - |Fence| - 1)];
      assert (p + "\n")[..|p|] == p;
      p + "\n"
    else
      t
  }

  /** `clean_output(text)`: strip, remove an opening fence, remove a closing
      fence, strip again. The answer is trimmed and never longer than the input. */
  function CleanOutput(text: string): (r: string)
    ensures IsTrimmed(r)
    ensures |r| <= |text|
  {
    Strip(StripTrailingFence(StripLeadingFence(Strip(text))))
  }

  /** Stripping text that is already trimmed changes nothing. */
  lemma StripTrimmed(s: string)
    requires IsTrimmed(s)
    ensures Strip(s) == s
  {
  }

  /** A slice of a slice is a slice. */
  lemma SliceOfSlice(t: string, s: string, n: nat, a: nat, b: nat)
    requires n + |s| <= |t| && s == t[n..n + |s|] && a <= b <= |s|
    ensures s[a..b] == t[n + a..n + b]
  {
    assert forall k :: 0 <= k < b - a ==> s[a..b][k] == t[n + a + k];
  }

  /** A slice `r` of a slice `s` of `t` is itself a slice of `t`. */
  lemma SliceOfSliceIs(t: string, s: string, r: string, n: nat, a: nat, b: nat)
    requires n + |s| <= |t| && s == t[n..n + |s|] && a <= b <= |s| && r == s[a..b]
    ensures r == t[n + a..n + b]
  {
    SliceOfSlice(t, s, n, a, b);
  }

  /** A suffix is the slice that ends at the end. */
  lemma SuffixIsSlice(s: string, u: string)
    requires |u| <= |s| && u == s[|s| - |u|..]
    ensures u == s[|s| - |u|..|s| - |u| + |u|]
  {
    assert s[|s| - |u|..] == s[|s| - |u|..|s|];
  }

  /** Whitespace inside a slice is whitespace of the whole. */
  lemma SpacesOfSlice(t: string, s: string, n: nat, a: nat, b: nat)
    requires n + |s| <= |t| && s == t[n..n + |s|] && a <= b <= |s|
    requires forall k :: a <= k < b ==> IsSpace(s[k])
    ensures forall k :: n + a <= k < n + b ==> IsSpace(t[k])
  {
    forall k | n + a <= k < n + b ensures IsSpace(t[k]) {
      assert t[k] == s[k - n];
    }
  }

  /** Removing an opening fence from trimmed text leaves trimmed text. */
  lemma LeadingFenceKeepsTrimmed(s: string)
    requires IsTrimmed(s)
    ensures IsTrimmed(StripLeadingFence(s))
  {
    var u := StripLeadingFence(s);
    if u != [] {
      var n := |s| - |u|;
      assert u == s[n..];
      assert u[|u| - 1] == s[n + |u| - 1];
      if !StartsWith(s, Fence) {
        assert u == s;
      }
    }
  }

  /** Trimmed text never ends with a fence and a newline, so inside
      `clean_output` the second way `$` can match never applies. */
  lemma TrimmedHasNoFinalNewline(u: string)
    requires IsTrimmed(u)
    ensures !EndsWith(u, Fence + "\n")
  {
    if |u| >= 4 {
      assert u[|u| - 4..][3] == u[|u| - 1];
    }
  }

  /** Removing a closing fence from trimmed text leaves a trimmed prefix of it. */
  lemma TrailingFenceKeepsTrimmed(u: string)
    requires IsTrimmed(u)
    ensures var v := StripTrailingFence(u); |v| <= |u| && v == u[..|v|] && IsTrimmed(v)
  {
    TrimmedHasNoFinalNewline(u);
    var v := StripTrailingFence(u);
    assert v != [] ==> v[0] == u[0];
  }

  /** A trimmed prefix of a suffix is a trimmed slice. */
  lemma TrimmedSlice(s: string, u: string, v: string) returns (i: nat, j: nat)
    requires |u| <= |s| && u == s[|s| - |u|..]
    requires |v| <= |u| && v == u[..|v|] && IsTrimmed(v)
    ensures i <= j <= |s| && v == s[i..j] && IsTrimmed(s[i..j])
  {
    i := |s| - |u|;
    j := i + |v|;
    SuffixIsSlice(s, u);
    SliceOfSlice(s, u, i, 0, |v|);
  }

  /** On trimmed text the two fence removals leave a trimmed slice of it. */
  lemma FencesRemovedFromTrimmed(s: string) returns (i: nat, j: nat)
    requires IsTrimmed(s)
    ensures i <= j <= |s| && StripTrailingFence(StripLeadingFence(s)) == s[i..j]
    ensures IsTrimmed(s[i..j])
  {
    LeadingFenceKeepsTrimmed(s);
    TrailingFenceKeepsTrimmed(StripLeadingFence(s));
    i, j := TrimmedSlice(s, StripLeadingFence(s), StripTrailingFence(StripLeadingFence(s)));
  }

  /** The final `strip()` of `clean_output` never removes anything: the
      answer is the input with its whitespace and fences cut off. */
  lemma CleanOutputIsFenceRemoval(text: string)
    ensures CleanOutput(text) == StripTrailingFence(StripLeadingFence(Strip(text)))
  {
    var i, j := FencesRemovedFromTrimmed(Strip(text));
    StripTrimmed(Strip(text)[i..j]);
  }

  /** The answer of `clean_output` is a slice of the stripped text. */
  lemma CleanOutputInStripped(text: string) returns (a: nat, b: nat)
    ensures a <= b <= |Strip(text)| && CleanOutput(text) == Strip(text)[a..b]
  {
    a, b := FencesRemovedFromTrimmed(Strip(text));
    CleanOutputIsFenceRemoval(text);
  }

  /** A slice of the stripped text is a slice of the text itself. */
  lemma SliceOfStripped(text: string, r: string, a: nat, b: nat) returns (i: nat, j: nat)
    requires a <= b <= |Strip(text)| && r == Strip(text)[a..b]
    ensures i <= j <= |text| && r == text[i..j]
  {
    var n := SkipSpaces(text, 0);
    SliceOfSliceIs(text, Strip(text), r, n, a, b);
    i, j := n + a, n + b;
  }

  /** `clean_output` only deletes: its answer is one contiguous slice of its input. */
  lemma CleanOutputIsSlice(text: string) returns (i: nat, j: nat)
    ensures i <= j <= |text| && CleanOutput(text) == text[i..j]
  {
    var a, b := CleanOutputInStripped(text);
    i, j := SliceOfStripped(text, CleanOutput(text), a, b);
  }

  /** Without a fence at either end of the trimmed text, `clean_output` is
      plain `strip()`. */
  lemma CleanOutputWithoutFences(text: string)
    requires !StartsWith(Strip(text), Fence) && !EndsWith(Strip(text), Fence)
    ensures CleanOutput(text) == Strip(text)
  {
    var s := Strip(text);
    CleanOutputIsFenceRemoval(text);
    assert StripLeadingFence(s) == s;
    TrimmedHasNoFinalNewline(s);
    assert StripTrailingFence(s) == s;
  }

  /** Both fence removals on text that starts and (after the first) ends
      with a fence: the result is the slice between the whitespace after
      the opening fence and the whitespace before the closing one. */
  lemma BothFences(s: string) returns (i: nat)
    requires StartsWith(s, Fence) && EndsWith(StripLeadingFence(s), Fence)
    ensures var r := StripTrailingFence(StripLeadingFence(s));
      && OpenerLength(s) <= i && i + |r| + |Fence| <= |s|
      && r == s[i..i + |r|]
      && (forall k :: OpenerLength(s) <= k < i ==> IsSpace(s[k]))
      && (forall k :: i + |r| <= k < |s| - |Fence| ==> IsSpace(s[k]))
    ensures IsTrimmed(StripTrailingFence(StripLeadingFence(s)))
  {
    i := FencedSlice(s, StripLeadingFence(s), StripTrailingFence(StripLeadingFence(s)), OpenerLength(s));
    TrimmedBetweenFences(StripLeadingFence(s), StripTrailingFence(StripLeadingFence(s)));
  }

  /** A prefix of text that does not start with whitespace, itself not
      ending with whitespace, is trimmed. */
  lemma TrimmedBetweenFences(u: string, v: string)
    requires (u == [] || !IsSpace(u[0])) && |v| <= |u| && v == u[..|v|]
    requires v == [] || !IsSpace(v[|v| - 1])
    ensures IsTrimmed(v)
  {
    assert v != [] ==> v[0] == u[0];
  }

  /** The slicing argument of `BothFences`, on plain strings: `u` is what
      follows the opener of length `m` and its whitespace in `s`, and `v`
      is what precedes the whitespace and closing fence in `u`. */
  lemma FencedSlice(s: string, u: string, v: string, m: nat) returns (i: nat)
    requires |u| <= |s| && u == s[|s| - |u|..]
    requires m + |u| <= |s| && forall k :: m <= k < |s| - |u| ==> IsSpace(s[k])
    requires |v| + |Fence| <= |u| && v == u[..|v|]
    requires forall k :: |v| <= k < |u| - |Fence| ==> IsSpace(u[k])
    ensures m <= i && i + |v| + |Fence| <= |s| && v == s[i..i + |v|]
    ensures forall k :: m <= k < i ==> IsSpace(s[k])
    ensures forall k :: i + |v| <= k < |s| - |Fence| ==> IsSpace(s[k])
  {
    i := |s| - |u|;
    SuffixIsSlice(s, u);
    SliceOfSlice(s, u, i, 0, |v|);
    SpacesOfSlice(s, u, i, |v|, |u| - |Fence|);
  }

  /** An opening fence followed by its tag loses the tag too, and then
      the whitespace after it. */
  lemma TaggedOpener(s: string)
    requires StartsWith(s, Fence + JsonTag)
    ensures StripLeadingFence(s) == s[SkipSpaces(s, |Fence + JsonTag|)..]
  {
    assert StartsWith(s, Fence) by {
      assert s[..|Fence|] == s[..|Fence + JsonTag|][..|Fence|];
    }
  }

  /** The tag is taken even when no whitespace follows it. */
  lemma TagTakenWithoutSpace(s: string)
    requires StartsWith(s, Fence + JsonTag) && |s| > |Fence + JsonTag| && !IsSpace(s[|Fence + JsonTag|])
    ensures StripLeadingFence(s) == s[|Fence + JsonTag|..]
  {
    TaggedOpener(s);
  }

  /** `clean_output` computed stage by stage. */
  lemma CleanOutputByStages(text: string, s: string, u: string, v: string)
    requires Strip(text) == s && StripLeadingFence(s) == u && StripTrailingFence(u) == v
    ensures CleanOutput(text) == v
  {
    CleanOutputIsFenceRemoval(text);
  }

  /** The three stages of `clean_output` on the answer "```jsonV```". */
  lemma TaggedAnswerIsTrimmed()
    ensures Strip("```jsonV```") == "```jsonV```"
  {
    StripTrimmed("```jsonV```");
  }

  lemma TaggedAnswerOpener()
    ensures StripLeadingFence("```jsonV```") == "V```"
  {
    TagTakenWithoutSpace("```jsonV```");
  }

  lemma TaggedAnswerCloser()
    ensures StripTrailingFence("V```") == "V"
  {
    assert SkipSpacesBack("V```", 0, 1) == 1;
  }

  /** The tag is taken even when no whitespace follows it. */
  lemma CleanTagWithoutSpace()
    ensures CleanOutput("```jsonV```") == "V"
  {
    TaggedAnswerIsTrimmed();
    TaggedAnswerOpener();
    TaggedAnswerCloser();
    CleanOutputByStages("```jsonV```", "```jsonV```", "V```", "V");
  }

  /** Only one opening fence is removed: a second fence right after the
      first one survives. */
  lemma LeadingFenceRemovedOnce(s: string)
    requires StartsWith(s, Fence + Fence)
    ensures StripLeadingFence(s) == s[|Fence|..]
    ensures StartsWith(StripLeadingFence(s), Fence)
  {
    assert s[|Fence|] == '`';
    assert StartsWith(s, Fence) by {
      assert s[..|Fence|] == s[..|Fence + Fence|][..|Fence|];
    }
    assert !StartsWith(s, Fence + JsonTag) by {
      assert (Fence + JsonTag)[|Fence|] == 'j';
    }
    assert SkipSpaces(s, |Fence|) == |Fence|;
    assert s[|Fence|..][..|Fence|] == s[..|Fence + Fence|][|Fence|..];
  }

  /** Only one closing fence is removed: a second fence right before the
      last one survives. */
  lemma TrailingFenceRemovedOnce(t: string)
    requires EndsWith(t, Fence + Fence)
    ensures StripTrailingFence(t) == t[..|t| - |Fence|]
    ensures EndsWith(StripTrailingFence(t), Fence)
  {
    var n := |t| - |Fence|;
    assert t[n - 1] == '`';
    assert EndsWith(t, Fence) by {
      assert t[n..] == t[n - |Fence|..][|Fence|..];
    }
    assert SkipSpacesBack(t, 0, n) == n;
    assert t[..n][n - |Fence|..] == t[n - |Fence|..][..|Fence|];
  }
}
