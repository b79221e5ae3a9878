/** `cleanJSONResponse` in Services/DeepSeekService.swift: strips a
    "```json" opening fence, then a "```" closing fence, then the
    surrounding white space. */
module ResponseCleaner {

  const JsonFence: string := "```json"
  const Fence: string := "```"

  /** Foundation's `CharacterSet.whitespacesAndNewlines`: Unicode general
      category Z, U+0009 to U+000D and U+0085. */
  predicate IsWhitespaceOrNewline(c: char) {
    || c == ' ' || '\t' <= c <= '\r' || c == '\U{0085}' || c == '\U{00A0}'
    || c == '\U{1680}' || '\U{2000}' <= c <= '\U{200A}' || c == '\U{2028}'
    || c == '\U{2029}' || c == '\U{202F}' || c == '\U{205F}' || c == '\U{3000}'
  }

  predicate AllWhitespace(s: string) {
    forall k :: 0 <= k < |s| ==> IsWhitespaceOrNewline(s[k])
  }

  /** Neither end of `s` is white space. */
  predicate Trimmed(s: string) {
    s != [] ==> !IsWhitespaceOrNewline(s[0]) && !IsWhitespaceOrNewline(s[|s| - 1])
  }

  predicate HasPrefix(s: string, p: string) {
    |p| <= |s| && s[..|p|] == p
  }

  predicate HasSuffix(s: string, p: string) {
    |p| <= |s| && s[|s| - |p|..] == p
  }

  /** The first position at or after `i` that is not white space, or |s|. */
  function SkipLeading(s: string, i: nat): (k: nat)
    requires i <= |s|
    ensures i <= k <= |s|
    ensures forall m :: i <= m < k ==> IsWhitespaceOrNewline(s[m])
    ensures k < |s| ==> !IsWhitespaceOrNewline(s[k])
    decreases |s| - i
  {
    if i < |s| && IsWhitespaceOrNewline(s[i]) then SkipLeading(s, i + 1) else i
  }

  /** The end of `s[lo..j]` once its trailing white space is dropped. */
  function SkipTrailing(s: string, lo: nat, j: nat): (k: nat)
    requires lo <= j <= |s|
    ensures lo <= k <= j
    ensures forall m :: k <= m < j ==> IsWhitespaceOrNewline(s[m])
    ensures k > lo ==> !IsWhitespaceOrNewline(s[k - 1])
    decreases j
  {
    if j > lo && IsWhitespaceOrNewline(s[j - 1]) then SkipTrailing(s, lo, j - 1) else j
  }

  /** How many white-space characters `s` starts with. */
  function Lead(s: string): (n: nat)
    ensures n <= |s|
  {
    SkipLeading(s, 0)
  }

  /** `trimmingCharacters(in: .whitespacesAndNewlines)`: the slice of `s`
      left after dropping white space at both ends. */
  function Trim(s: string): (r: string)
    ensures Trimmed(r)
    ensures Lead(s) + |r| <= |s| && r == s[Lead(s)..Lead(s) + |r|]
    ensures AllWhitespace(s[..Lead(s)]) && AllWhitespace(s[Lead(s) + |r|..])
  {
    var i := Lead(s);
    var j := SkipTrailing(s, i, |s|);
    assert j > i ==> i < |s| && !IsWhitespaceOrNewline(s[i]);
    s[i..j]
  }

  /** The first non-white-space character at or after `i` is at `k`. */
  lemma {:induction false} SkipLeadingTo(s: string, i: nat, k: nat)
    requires i <= k < |s|
    requires forall m :: i <= m < k ==> IsWhitespaceOrNewline(s[m])
    requires !IsWhitespaceOrNewline(s[k])
    ensures SkipLeading(s, i) == k
    decreases k - i
  {
    if i < k {
      SkipLeadingTo(s, i + 1, k);
    }
  }

  /** The last non-white-space character before `j` is at `k - 1`. */
  lemma {:induction false} SkipTrailingTo(s: string, lo: nat, j: nat, k: nat)
    requires lo < k <= j <= |s|
    requires forall m :: k <= m < j ==> IsWhitespaceOrNewline(s[m])
    requires !IsWhitespaceOrNewline(s[k - 1])
    ensures SkipTrailing(s, lo, j) == k
    decreases j - k
  {
    if k < j {
      SkipTrailingTo(s, lo, j - 1, k);
    }
  }

  /** A slice of a slice of `s` is a slice of `s`. */
  lemma SliceOfSlice(s: string, d: nat, b: string, i: nat, n: nat)
    requires d + |b| <= |s| && b == s[d..d + |b|] && i + n <= |b|
    ensures b[i..i + n] == s[d + i..d + i + n]
  {
    var x := b[i..i + n];
    var y := s[d + i..d + i + n];
    forall k | 0 <= k < n
      ensures x[k] == y[k]
    {
      assert x[k] == b[i + k];
    }
  }

  /** Trimming a string whose ends are not white space changes nothing. */
  lemma TrimOfTrimmed(s: string)
    requires Trimmed(s)
    ensures Trim(s) == s
  {
    if s != [] {
      SkipLeadingTo(s, 0, 0);
      SkipTrailingTo(s, 0, |s|, |s|);
      assert s[0..|s|] == s;
    }
  }

  /** The "```json" step: exactly those seven characters go, and only when
      the response begins with them. */
  function DropJsonFence(s: string): (r: string)
    ensures HasPrefix(s, JsonFence) ==> |r| == |s| - |JsonFence|
    ensures !HasPrefix(s, JsonFence) ==> r == s
    ensures |r| <= |s| && r == s[|s| - |r|..]
  {
    if HasPrefix(s, JsonFence) then s[|JsonFence|..] else s
  }

  /** What the "```json" step removes is the fence itself. */
  lemma DropJsonFenceSplits(s: string)
    requires HasPrefix(s, JsonFence)
    ensures JsonFence + DropJsonFence(s) == s
  {
    assert s == s[..|JsonFence|] + s[|JsonFence|..];
  }

  /** The "```" step: exactly those three characters go from the end, and
      only when the string ends with them. */
  function DropClosingFence(s: string): (r: string)
    ensures HasSuffix(s, Fence) ==> |r| == |s| - |Fence|
    ensures !HasSuffix(s, Fence) ==> r == s
    ensures |r| <= |s| && r == s[..|r|]
  {
    if HasSuffix(s, Fence) then s[..|s| - |Fence|] else s
  }

  /** What the "```" step removes is the fence itself. */
  lemma DropClosingFenceSplits(s: string)
    requires HasSuffix(s, Fence)
    ensures DropClosingFence(s) + Fence == s
  {
    assert s == s[..|s| - |Fence|] + s[|s| - |Fence|..];
  }

  /** `cleanJSONResponse`. The closing-fence test looks at what the first
      step left, not at the original response; trimming comes last. */
  function CleanJsonResponse(response: string): (r: string)
    ensures Trimmed(r)
    ensures |r| <= |response|
  {
    Trim(DropClosingFence(DropJsonFence(response)))
  }

  /** A response with neither marker comes back trimmed and otherwise as
      it was. */
  lemma CleanWithoutFences(response: string)
    requires !HasPrefix(response, JsonFence) && !HasSuffix(response, Fence)
    ensures CleanJsonResponse(response) == Trim(response)
  {
  }

  /** A fenced response loses the seven opening characters and the three
      closing ones; what lies between is only trimmed. */
  lemma CleanFencedBlock(body: string)
    ensures CleanJsonResponse(JsonFence + body + Fence) == Trim(body)
  {
    var s := JsonFence + body + Fence;
    assert HasPrefix(s, JsonFence) by { assert s[..|JsonFence|] == JsonFence; }
    assert DropJsonFence(s) == body + Fence;
    assert HasSuffix(body + Fence, Fence) by {
      assert (body + Fence)[|body|..] == Fence;
    }
  }

  /** The result is a contiguous piece of the response, so never longer. */
  lemma CleanIsSlice(response: string) returns (i: nat, j: nat)
    ensures i <= j <= |response| && CleanJsonResponse(response) == response[i..j]
    ensures |CleanJsonResponse(response)| <= |response|
  {
    var a := DropJsonFence(response);
    var b := DropClosingFence(a);
    var r := Trim(b);
    SliceOfSuffixPrefix(response, a, b, r, Lead(b));
    i := |response| - |a| + Lead(b);
    j := i + |r|;
  }

  /** A slice of a prefix of a suffix of `s` is a slice of `s`. */
  lemma SliceOfSuffixPrefix(s: string, a: string, b: string, r: string, e: nat)
    requires |a| <= |s| && a == s[|s| - |a|..]
    requires |b| <= |a| && b == a[..|b|]
    requires e + |r| <= |b| && r == b[e..e + |r|]
    ensures |s| - |a| + e + |r| <= |s|
    ensures r == s[|s| - |a| + e..|s| - |a| + e + |r|]
  {
    var d := |s| - |a|;
    SliceOfSlice(s, d, a, 0, |b|);
    assert b == a[0..|b|];
    SliceOfSlice(s, d, b, e, |r|);
  }

  /** Cleaning again changes nothing when the first result carries neither
      marker. */
  lemma CleanAgainWithoutFences(response: string)
    requires !HasPrefix(CleanJsonResponse(response), JsonFence)
    requires !HasSuffix(CleanJsonResponse(response), Fence)
    ensures CleanJsonResponse(CleanJsonResponse(response)) == CleanJsonResponse(response)
  {
    TrimOfTrimmed(CleanJsonResponse(response));
  }

  /** Cleaning is not idempotent: a space before the opening fence keeps the
      first pass from seeing it, and the second pass then removes it. */
  lemma CleanNotIdempotent()
    ensures CleanJsonResponse(" ```json{}```") == "```json{}"
    ensures CleanJsonResponse("```json{}") == "{}"
  {
    FirstPass();
    SecondPass();
  }

  lemma FirstPass()
    ensures CleanJsonResponse(" ```json{}```") == "```json{}"
  {
    FirstPassFences();
    FirstPassTrim();
  }

  lemma FirstPassFences()
    ensures DropClosingFence(DropJsonFence(" ```json{}```")) == " ```json{}"
  {
    var s := " ```json{}```";
    assert !HasPrefix(s, JsonFence) by { assert s[..7][0] == ' '; }
    assert HasSuffix(s, Fence) by { assert s[|s| - 3..] == Fence; }
    assert s[..|s| - 3] == " ```json{}";
  }

  lemma FirstPassTrim()
    ensures Trim(" ```json{}") == "```json{}"
  {
    var b := " ```json{}";
    assert b[0] == ' ' && b[1] == '`' && b[|b| - 1] == '}';
    SkipLeadingTo(b, 0, 1);
    SkipTrailingTo(b, 1, |b|, |b|);
    assert b[1..|b|] == "```json{}";
  }

  lemma SecondPass()
    ensures CleanJsonResponse("```json{}") == "{}"
  {
    var c := "```json{}";
    assert HasPrefix(c, JsonFence) by { assert c[..7] == JsonFence; }
    assert DropJsonFence(c) == "{}" by { assert c[7..] == "{}"; }
    assert !HasSuffix("{}", Fence);
    TrimOfTrimmed("{}");
  }

  /** A fenced reply followed by a newline keeps its closing fence: the
      "```" test runs before the trailing newline is trimmed. */
  lemma TrailingNewlineKeepsFence()
    ensures CleanJsonResponse("```json{}```\n") == "{}```"
  {
    var s := "```json{}```\n";
    assert HasPrefix(s, JsonFence) by { assert s[..7] == JsonFence; }
    var a := s[7..];
    assert a == "{}```\n";
    assert DropJsonFence(s) == a;
    assert !HasSuffix(a, Fence) by { assert a[|a| - 1] == '\n'; }
    TrimOfPadded([], "{}```", "\n");
    assert [] + "{}```" + "\n" == a;
  }

  /** The cleaning as evidently intended: trim first, so that white space
      around the fences does not hide them, then strip the fences and trim
      what lies between. */
  function CleanJsonResponseTrimFirst(response: string): (r: string)
    ensures Trimmed(r)
    ensures |r| <= |response|
  {
    Trim(DropClosingFence(DropJsonFence(Trim(response))))
  }

  /** On a response with no white space at either end, the corrected
      cleaning does what the code does. */
  lemma TrimFirstAgreesWhenTrimmed(response: string)
    requires Trimmed(response)
    ensures CleanJsonResponseTrimFirst(response) == CleanJsonResponse(response)
  {
    TrimOfTrimmed(response);
  }

  /** A fenced block, with any white space before and after it, cleans to
      its trimmed body. */
  lemma TrimFirstStripsPaddedBlock(before: string, body: string, after: string)
    requires AllWhitespace(before) && AllWhitespace(after)
    ensures CleanJsonResponseTrimFirst(before + JsonFence + body + Fence + after) == Trim(body)
  {
    var block := JsonFence + body + Fence;
    assert before + JsonFence + body + Fence + after == before + block + after;
    assert block[0] == '`' && block[|block| - 1] == '`';
    TrimOfPadded(before, block, after);
    CleanFencedBlock(body);
  }

  /** White space around a string whose ends are not white space is exactly
      what trimming removes. */
  lemma TrimOfPadded(before: string, x: string, after: string)
    requires AllWhitespace(before) && AllWhitespace(after)
    requires x != [] && !IsWhitespaceOrNewline(x[0]) && !IsWhitespaceOrNewline(x[|x| - 1])
    ensures Trim(before + x + after) == x
  {
    var s := before + x + after;
    var i := |before|;
    var j := |before| + |x|;
    assert forall m :: 0 <= m < i ==> s[m] == before[m];
    assert forall m :: j <= m < |s| ==> s[m] == after[m - j];
    assert s[i] == x[0] && s[j - 1] == x[|x| - 1];
    SkipLeadingTo(s, 0, i);
    SkipTrailingTo(s, i, |s|, j);
    assert s[i..j] == x;
  }
}
