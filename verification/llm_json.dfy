/** The tolerant parser `parseLlmJson` of the front end (App.jsx): it turns a
    response body that is either a plain array or an LLM message object whose
    `content` string embeds a JSON array into a value, and never throws.

    `JSON.parse` is the abstract `decode` parameter (`None` is a SyntaxError);
    the two regular expressions the parser uses are modelled by hand, each with
    an independent statement of the match the regex engine picks. */
module LlmJson {
  import opened Maybe
  import opened JsValue
  import opened Text

  /** A regex match: `s[start..end]` is the whole match (`m[0]`) and `group` is
      capture group 1 when the pattern has one (`m[1]`, otherwise undefined). */
  datatype Match = Match(start: nat, end: nat, group: Option<string>)

  const FenceOpen: string := "```json\n"
  const FenceClose: string := "\n```"

  /** A fenced block could be matched with its opening fence at `i` and its
      closing fence at `j`. */
  ghost predicate FenceAt(s: string, i: int, j: int) {
    OccursAt(s, FenceOpen, i) && i + |FenceOpen| <= j && OccursAt(s, FenceClose, j)
  }

  /** The pair the regex `/```json\n([\s\S]*?)\n```/` reports: the leftmost
      opening fence that can match at all, then (lazy group) the nearest
      closing fence after it. */
  ghost predicate IsFenceMatch(s: string, i: int, j: int) {
    && FenceAt(s, i, j)
    && (forall i', j' :: i' < i ==> !FenceAt(s, i', j'))
    && (forall j' :: i + |FenceOpen| <= j' < j ==> !OccursAt(s, FenceClose, j'))
  }

  /** `s.match(/```json\n([\s\S]*?)\n```/)`. */
  function FenceMatch(s: string): (r: Option<Match>)
    ensures r.None? <==> forall i, j :: !FenceAt(s, i, j)
    ensures r.Some? ==>
      && r.value.start + |FenceOpen| + |FenceClose| <= r.value.end <= |s|
      && IsFenceMatch(s, r.value.start, r.value.end - |FenceClose|)
      && r.value.group == Some(s[r.value.start + |FenceOpen| .. r.value.end - |FenceClose|])
  {
    match IndexOfFrom(s, FenceOpen, 0)
    case None => None
    case Some(i) =>
      match IndexOfFrom(s, FenceClose, i + |FenceOpen|)
      case None => None
      case Some(j) =>
        assert FenceAt(s, i, j);
        Some(Match(i, j + |FenceClose|, Some(s[i + |FenceOpen| .. j])))
  }

  /** A bracketed span could be matched from the `[` at `i` to the `]` at `j`. */
  ghost predicate BracketAt(s: string, i: int, j: int) {
    0 <= i < j < |s| && s[i] == '[' && s[j] == ']'
  }

  /** `s.match(/\[[\s\S]*\]/)`: the leftmost `[` that has a `]` after it, and
      (greedy) the last `]` of the text; the pattern has no capture group. */
  function BracketMatch(s: string): (r: Option<Match>)
    ensures r.None? <==> forall i, j :: !BracketAt(s, i, j)
    ensures r.Some? ==>
      && r.value.start < r.value.end <= |s|
      && BracketAt(s, r.value.start, r.value.end - 1)
      && (forall i, j :: BracketAt(s, i, j) ==> r.value.start <= i && j < r.value.end)
      && r.value.group.None?
  {
    match FirstIndexOf(s, '[', 0)
    case None => None
    case Some(i) =>
      match LastIndexOf(s, ']')
      case None => None
      case Some(j) =>
        if i < j then
          assert BracketAt(s, i, j);
          Some(Match(i, j + 1, None))
        else None
  }

  /** `m[1] || m[0]`: capture group 1 unless it is absent or empty, in which case
      the whole match. */
  function MatchedText(s: string, m: Match): string
    requires m.start <= m.end <= |s|
  {
    if m.group.Some? && |m.group.value| > 0 then m.group.value else s[m.start..m.end]
  }

  /** The text `parseLlmJson` hands to `JSON.parse` for a `content` string: the
      fenced-block match if there is one, else the bracket match, else none. */
  function ExtractJsonText(c: string): Option<string> {
    match FenceMatch(c)
    case Some(m) => Some(MatchedText(c, m))
    case None =>
      match BracketMatch(c)
      case Some(m) => Some(MatchedText(c, m))
      case None => None
  }

  /** The `content` text that `parseLlmJson` searches: present only when the
      input is not an array, is truthy, and has a non-empty string `content`.
      A truthy `content` of any other type makes `content.match` throw, which
      the parser's catch turns into `[]`, exactly like a missing one. */
  function ContentText(data: Value): Option<string> {
    if data.Arr? || !Truthy(data) then None
    else
      match Get(data, "content")
      case Str(c) => if |c| > 0 then Some(c) else None
      case _ => None
  }

  /** `JSON.parse(text)` inside the parser's try: a SyntaxError becomes `[]`. */
  function DecodeOrEmpty(decode: string -> Option<Value>, text: string): Value {
    decode(text).GetOr(EmptyArray)
  }

  /** `parseLlmJson(data)` (App.jsx:16-34). */
  function ParseLlmJson(data: Value, decode: string -> Option<Value>): (r: Value)
    ensures data.Arr? ==> r == data
    ensures ContentText(data).None? && !data.Arr? ==> r == EmptyArray
    ensures ContentText(data).Some? && ExtractJsonText(ContentText(data).value).None? ==> r == EmptyArray
    ensures !data.Arr? && r != EmptyArray ==>
      exists text :: ExtractJsonText(ContentText(data).value) == Some(text) && decode(text) == Some(r)
  {
    if data.Arr? then data
    else
      match ContentText(data)
      case None => EmptyArray
      case Some(c) =>
        match ExtractJsonText(c)
        case None => EmptyArray
        case Some(text) => DecodeOrEmpty(decode, text)
  }

  /** The regex's choice of fenced block is unique. */
  lemma FenceMatchUnique(s: string, i: int, j: int, i': int, j': int)
    requires IsFenceMatch(s, i, j) && IsFenceMatch(s, i', j')
    ensures i == i' && j == j'
  {
  }

  /** Given a non-empty `content` string, the leftmost fenced JSON block (closed
      by its nearest closing fence) is what gets decoded, whatever brackets the
      text also holds; an empty block falls back to the whole match, fences
      included, because `m[1] || m[0]` treats `""` as absent. */
  lemma FencedBlockPreferred(data: Value, decode: string -> Option<Value>, c: string, i: int, j: int)
    requires ContentText(data) == Some(c)
    requires IsFenceMatch(c, i, j)
    ensures 0 <= i && i + |FenceOpen| <= j && j + |FenceClose| <= |c|
    ensures ParseLlmJson(data, decode) ==
      DecodeOrEmpty(decode, if i + |FenceOpen| < j then c[i + |FenceOpen| .. j] else c[i .. j + |FenceClose|])
  {
    var m := FenceMatch(c);
    assert m.Some? by {
      assert FenceAt(c, i, j);
    }
    FenceMatchUnique(c, i, j, m.value.start, m.value.end - |FenceClose|);
  }

  /** Without any fenced block, the text from the first `[` that has a `]`
      after it through the last `]` is decoded. */
  lemma BracketSpanFallback(data: Value, decode: string -> Option<Value>, c: string, i: int, j: int)
    requires ContentText(data) == Some(c)
    requires forall i', j' :: !FenceAt(c, i', j')
    requires BracketAt(c, i, j)
    requires forall i', j' :: BracketAt(c, i', j') ==> i <= i' && j' <= j
    ensures ParseLlmJson(data, decode) == DecodeOrEmpty(decode, c[i .. j + 1])
  {
    var m := BracketMatch(c);
    assert m.Some?;
    assert BracketAt(c, m.value.start, m.value.end - 1);
    assert m.value.start == i && m.value.end == j + 1;
  }

  /** With neither a fenced block nor a `[` followed by a `]`, the result is `[]`. */
  lemma NoMatchYieldsEmpty(data: Value, decode: string -> Option<Value>, c: string)
    requires ContentText(data) == Some(c)
    requires forall i, j :: !FenceAt(c, i, j)
    requires forall i, j :: !BracketAt(c, i, j)
    ensures ParseLlmJson(data, decode) == EmptyArray
  {
  }

  /** The object `{"content": text}` a language-model endpoint returns. */
  function ContentObject(text: string): Value {
    Obj(map["content" := Str(text)])
  }

  /** An occurrence of `pat` starts with its first character. */
  lemma OccurrenceStartsWithHead(s: string, pat: string, i: int)
    requires |pat| > 0 && OccursAt(s, pat, i)
    ensures s[i] == pat[0]
  {
    assert s[i..i + |pat|][0] == s[i];
  }

  /** In `prefix + "```json\n" + body + "\n```" + suffix`, with no backquote
      in `prefix` and no newline in `body`, the regex reports exactly the
      block around `body`. */
  lemma FencedBlockInText(prefix: string, body: string, suffix: string)
    requires '`' !in prefix
    requires '\n' !in body
    ensures IsFenceMatch(prefix + FenceOpen + body + FenceClose + suffix,
                         |prefix|, |prefix| + |FenceOpen| + |body|)
  {
    var c := prefix + FenceOpen + body + FenceClose + suffix;
    var i := |prefix|;
    var j := |prefix| + |FenceOpen| + |body|;
    assert c[i .. i + |FenceOpen|] == FenceOpen;
    assert c[j .. j + |FenceClose|] == FenceClose;
    forall i', j' | i' < i
      ensures !FenceAt(c, i', j')
    {
      if FenceAt(c, i', j') {
        OccurrenceStartsWithHead(c, FenceOpen, i');
      }
    }
    forall j' | i + |FenceOpen| <= j' < j
      ensures !OccursAt(c, FenceClose, j')
    {
      if OccursAt(c, FenceClose, j') {
        OccurrenceStartsWithHead(c, FenceClose, j');
      }
    }
  }

  /** Text without a backquote holds no fenced block. */
  lemma NoBackquoteNoFence(c: string)
    requires '`' !in c
    ensures forall i, j :: !FenceAt(c, i, j)
  {
    forall i, j | FenceAt(c, i, j)
      ensures false
    {
      OccurrenceStartsWithHead(c, FenceOpen, i);
    }
  }

  /** In `prefix + body + suffix`, where `body` runs from a `[` to a `]`, no `[`
      precedes it and no `]` follows it, the bracket fallback picks `body`. */
  lemma BracketSpanInText(prefix: string, body: string, suffix: string)
    requires '[' !in prefix && ']' !in suffix
    requires |body| >= 2 && body[0] == '[' && body[|body| - 1] == ']'
    ensures BracketAt(prefix + body + suffix, |prefix|, |prefix| + |body| - 1)
    ensures forall i, j :: BracketAt(prefix + body + suffix, i, j) ==>
      |prefix| <= i && j <= |prefix| + |body| - 1
  {
    var c := prefix + body + suffix;
    forall i, j | BracketAt(c, i, j)
      ensures |prefix| <= i && j <= |prefix| + |body| - 1
    {
    }
  }

  /** A reply whose content is `prefix`, a fenced block around a non-empty
      one-line `body`, and `suffix` decodes exactly `body`. */
  lemma FencedReplyDecodesBody(decode: string -> Option<Value>, prefix: string, body: string, suffix: string)
    requires '`' !in prefix
    requires '\n' !in body && |body| > 0
    ensures ParseLlmJson(ContentObject(prefix + FenceOpen + body + FenceClose + suffix), decode)
      == DecodeOrEmpty(decode, body)
  {
    var c := prefix + FenceOpen + body + FenceClose + suffix;
    var i := |prefix|;
    var j := |prefix| + |FenceOpen| + |body|;
    FencedBlockInText(prefix, body, suffix);
    assert ContentText(ContentObject(c)) == Some(c);
    FencedBlockPreferred(ContentObject(c), decode, c, i, j);
    assert c[i + |FenceOpen| .. j] == body;
  }

  /** A fenced block embedded after prose is found and its inner text decoded. */
  lemma FencedExample(decode: string -> Option<Value>, v: Value)
    requires decode("[{\"id\":2}]") == Some(v)
    ensures ParseLlmJson(ContentObject("here:\n```json\n[{\"id\":2}]\n```"), decode) == v
  {
    assert "here:\n```json\n[{\"id\":2}]\n```" == "here:\n" + FenceOpen + "[{\"id\":2}]" + FenceClose + "";
    FencedReplyDecodesBody(decode, "here:\n", "[{\"id\":2}]", "");
  }

  /** A bare array inside prose is found by the bracket fallback. */
  lemma BracketExample(decode: string -> Option<Value>, v: Value)
    requires decode("[{\"id\":3}]") == Some(v)
    ensures ParseLlmJson(ContentObject("Result: [{\"id\":3}] done."), decode) == v
  {
    var prefix, body, suffix := "Result: ", "[{\"id\":3}]", " done.";
    var c := "Result: [{\"id\":3}] done.";
    assert c == prefix + body + suffix;
    NoBackquoteNoFence(c);
    BracketSpanInText(prefix, body, suffix);
    BracketSpanFallback(ContentObject(c), decode, c, |prefix|, |prefix| + |body| - 1);
    assert c[|prefix| .. |prefix| + |body|] == body;
  }

  /** Text with no JSON in it degrades to `[]`, never to an error. */
  lemma NoJsonExample(decode: string -> Option<Value>)
    ensures ParseLlmJson(ContentObject("no json here"), decode) == EmptyArray
  {
    var c := "no json here";
    NoBackquoteNoFence(c);
    NoMatchYieldsEmpty(ContentObject(c), decode, c);
  }

  /** The result is not always an array: whatever the matched text decodes to
      is returned, which is why callers test `Array.isArray` again. */
  lemma ResultNeedNotBeArray(decode: string -> Option<Value>)
    requires decode("[1]") == Some(Num(5.0))
    ensures ParseLlmJson(ContentObject("[1]"), decode) == Num(5.0)
  {
    var c := "[1]";
    assert c == "" + c + "";
    NoBackquoteNoFence(c);
    BracketSpanInText("", c, "");
    BracketSpanFallback(ContentObject(c), decode, c, 0, 2);
    assert c[0..3] == c;
  }
}
