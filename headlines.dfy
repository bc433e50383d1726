/** The headline parsing done by fetchNews (App.tsx): the reply of the search
    service is cut into lines, the first three long lines become news items
    with their ordinal marker and bracketed citation removed, each paired with
    the matching grounding link or a fallback link. */
module Headlines {
  import opened Types
  import opened JsBuiltins

  datatype NewsItem = NewsItem(title: string, url: string)

  /** What the search service call produced: the response text with, per
      grounding chunk, its web URI when it has one; or the message of the
      error it threw. */
  datatype Reply = Answered(text: string, chunkUris: seq<Option<string>>) | Failed(message: string)

  const MaxHeadlines: nat := 3
  const MinLineLength: nat := 10
  const FallbackUrl: string := "https://news.google.com"
  const MissingKeyMessage: string := "Missing API configuration. Please set the API_KEY environment variable."
  const NoHeadlinesMessage: string := "No headlines found."
  const GenericFailureMessage: string := "Unable to sync with news servers."

  // ------------------------------------------------ the ordinal /^\d+\.\s*/

  /** s starts with one or more digits followed by a full stop. */
  ghost predicate HasOrdinal(s: string) {
    exists n :: 1 <= n < |s| && s[n] == '.' && forall k :: 0 <= k < n ==> IsDigit(s[k])
  }

  /** m is a whole match of /^\d+\.\s*\/: digits, a full stop, white space. */
  ghost predicate OrdinalMarker(m: string) {
    exists n :: 1 <= n < |m| && m[n] == '.' && (forall k :: 0 <= k < n ==> IsDigit(m[k]))
      && forall k :: n < k < |m| ==> IsWhitespace(m[k])
  }

  /** The characters before LeadingDigitCount(s) are digits. */
  lemma DigitRun(s: string)
    ensures forall k :: 0 <= k < LeadingDigitCount(s) ==> IsDigit(s[k])
  {
    var n := LeadingDigitCount(s);
    assert forall k :: 0 <= k < n ==> s[..n][k] == s[k];
  }

  /** A digit run ending in a full stop is the whole leading digit run. */
  lemma OrdinalAt(s: string, n: nat)
    requires 1 <= n < |s| && s[n] == '.' && forall k :: 0 <= k < n ==> IsDigit(s[k])
    ensures n == LeadingDigitCount(s)
  {
    DigitRun(s);
  }

  /** Where the digit run is not followed by a full stop there is no
      ordinal. */
  lemma NoOrdinal(s: string)
    requires var n := LeadingDigitCount(s); !(0 < n < |s| && s[n] == '.')
    ensures !HasOrdinal(s)
  {
    forall n' | 1 <= n' < |s| && s[n'] == '.' && forall k :: 0 <= k < n' ==> IsDigit(s[k])
      ensures false
    {
      OrdinalAt(s, n');
    }
  }

  /** Digits, a full stop and the white space after it form a marker, and
      what follows is the rest of the line. */
  lemma MarkerThenRest(s: string, n: nat, t: string, r: string)
    requires 0 < n < |s| && s[n] == '.' && t == s[n + 1..]
    requires forall k :: 0 <= k < n ==> IsDigit(s[k])
    requires |r| <= |t| && r == t[|t| - |r|..]
    requires forall k :: 0 <= k < |t| - |r| ==> IsWhitespace(t[k])
    ensures |r| <= |s| && r == s[|s| - |r|..]
    ensures HasOrdinal(s) && OrdinalMarker(s[..|s| - |r|])
  {
    var w := |t| - |r|;
    var m := s[..n + 1 + w];
    assert t[w..] == s[n + 1 + w..];
    forall k | n < k < |m|
      ensures IsWhitespace(m[k])
    {
      assert m[k] == t[k - n - 1];
    }
    assert m[n] == '.';
  }

  /** line.replace(/^\d+\.\s*\/, ''): removes a leading ordinal marker and the
      white space after it. */
  function StripOrdinal(s: string): (r: string)
    ensures |r| <= |s| && r == s[|s| - |r|..]
  {
    var n := LeadingDigitCount(s);
    if 0 < n < |s| && s[n] == '.' then
      var r := TrimStart(s[n + 1..]);
      assert r == s[n + 1..][|s| - n - 1 - |r|..];
      assert s[n + 1..][|s| - n - 1 - |r|..] == s[|s| - |r|..];
      r
    else s
  }

  /** What StripOrdinal removes is exactly a marker: a line without one is
      left alone, and from a line with one the whole marker, white space
      included, goes. */
  lemma StripOrdinalRemovesMarker(s: string)
    ensures !HasOrdinal(s) ==> StripOrdinal(s) == s
    ensures HasOrdinal(s) ==> var r := StripOrdinal(s);
      OrdinalMarker(s[..|s| - |r|]) && (r == [] || !IsWhitespace(r[0]))
  {
    var n := LeadingDigitCount(s);
    if 0 < n < |s| && s[n] == '.' {
      var t := s[n + 1..];
      DigitRun(s);
      MarkerThenRest(s, n, t, TrimStart(t));
    } else {
      NoOrdinal(s);
    }
  }

  // -------------------------------------------- the citation /\[.*\]/ (greedy)

  /** No line terminator in s[a..b]. */
  ghost predicate OnOneLine(s: string, a: int, b: int)
    requires 0 <= a && b <= |s|
  {
    forall m :: a <= m < b ==> !IsLineTerminator(s[m])
  }

  /** s[i..j+1] matches /\[.*\]/: an opening bracket, characters other than
      line terminators, a closing bracket. */
  ghost predicate BracketSpan(s: string, i: int, j: int) {
    0 <= i < j < |s| && s[i] == '[' && s[j] == ']' && OnOneLine(s, i + 1, j)
  }

  /** The last ']' reachable from k without crossing a line terminator: where
      the greedy `.*\]` ends when it starts at k. */
  function GreedyClose(s: string, k: nat): (r: Option<nat>)
    requires k <= |s|
    ensures r.Some? ==> k <= r.value < |s| && s[r.value] == ']' && OnOneLine(s, k, r.value)
    ensures r.Some? ==> forall j :: r.value < j < |s| && OnOneLine(s, k, j) ==> s[j] != ']'
    ensures r.None? ==> forall j :: k <= j < |s| && OnOneLine(s, k, j) ==> s[j] != ']'
    decreases |s| - k
  {
    if k == |s| || IsLineTerminator(s[k]) then None
    else
      match GreedyClose(s, k + 1)
      case Some(j) => Some(j)
      case None => if s[k] == ']' then Some(k) else None
  }

  /** The leftmost, then longest, match of /\[.*\]/ starting at i or later. */
  function FindSpan(s: string, i: nat): (r: Option<(nat, nat)>)
    requires i <= |s|
    ensures r.None? ==> forall a, b :: i <= a && BracketSpan(s, a, b) ==> false
    ensures r.Some? ==> i <= r.value.0 && LeftmostLongest(s, r.value.0, r.value.1)
    ensures r.Some? ==> forall a, b :: i <= a < r.value.0 ==> !BracketSpan(s, a, b)
    decreases |s| - i
  {
    if i == |s| then None
    else
      var close := GreedyClose(s, i + 1);
      if s[i] == '[' && close.Some? then Some((i, close.value))
      else FindSpan(s, i + 1)
  }

  /** (i, j) is a match that no later ']' on the same line extends. */
  ghost predicate LeftmostLongest(s: string, i: int, j: int) {
    && BracketSpan(s, i, j)
    && (forall b :: j < b ==> !BracketSpan(s, i, b))
  }

  /** line.replace(/\[.*\]/, ''): removes the first bracketed span, from its
      '[' to the last ']' on the same line; without one the text is unchanged. */
  function StripBracket(s: string): (r: string)
    ensures (forall a, b :: !BracketSpan(s, a, b)) ==> r == s
    ensures (exists a, b :: BracketSpan(s, a, b)) ==>
      exists i, j :: LeftmostLongest(s, i, j) && (forall a, b :: a < i ==> !BracketSpan(s, a, b))
        && r == s[..i] + s[j + 1..]
  {
    match FindSpan(s, 0)
    case None => s
    case Some((i, j)) => s[..i] + s[j + 1..]
  }

  // ------------------------------------------------------------ the pipeline

  /** A line that is kept: longer than ten characters once trimmed. */
  predicate IsHeadlineLine(line: string) {
    |Trim(line)| > MinLineLength
  }

  /** lines.filter(line => line.trim().length > 10). */
  function KeepLong(lines: seq<string>): seq<string> {
    Filter(lines, IsHeadlineLine)
  }

  /** The title of an item: ordinal stripped, citation stripped, trimmed. */
  function CleanTitle(line: string): (title: string)
    ensures title != [] ==> !IsWhitespace(title[0]) && !IsWhitespace(title[|title| - 1])
  {
    Trim(StripBracket(StripOrdinal(line)))
  }

  /** chunks[k]?.web?.uri || 'https://news.google.com'. */
  function UrlFor(chunkUris: seq<Option<string>>, k: nat): (url: string)
    ensures url != ""
    ensures url == FallbackUrl || (k < |chunkUris| && chunkUris[k] == Some(url))
    ensures k < |chunkUris| && chunkUris[k].Some? && chunkUris[k].value != "" ==> url == chunkUris[k].value
  {
    if k < |chunkUris| && chunkUris[k].Some? && chunkUris[k].value != "" then chunkUris[k].value
    else FallbackUrl
  }

  lemma KeptLines(lines: seq<string>)
    ensures KeepLong(lines) == [] <==> forall l :: l in lines ==> !IsHeadlineLine(l)
    ensures forall k :: 0 <= k < |KeepLong(lines)| ==>
      KeepLong(lines)[k] in lines && IsHeadlineLine(KeepLong(lines)[k])
  {
    var kept := KeepLong(lines);
    FilterMembers(lines, IsHeadlineLine);
    assert forall k :: 0 <= k < |kept| ==> kept[k] in kept;
    if kept != [] {
      assert kept[0] in lines && IsHeadlineLine(kept[0]);
    }
  }

  /** The item made of the k-th kept line. */
  function ItemAt(line: string, chunkUris: seq<Option<string>>, k: nat): NewsItem {
    NewsItem(CleanTitle(line), UrlFor(chunkUris, k))
  }

  /** The first three kept lines made into items. */
  function MakeItems(kept: seq<string>, chunkUris: seq<Option<string>>): (items: seq<NewsItem>)
    ensures |items| == if |kept| <= MaxHeadlines then |kept| else MaxHeadlines
    ensures forall k :: 0 <= k < |items| ==> items[k] == ItemAt(kept[k], chunkUris, k)
  {
    var n := if |kept| <= MaxHeadlines then |kept| else MaxHeadlines;
    seq(n, k requires 0 <= k < n => ItemAt(kept[k], chunkUris, k))
  }

  /** The items built from a reply's text and grounding links, or the error
      thrown when there is none. */
  function ParseHeadlines(text: string, chunkUris: seq<Option<string>>): (r: Outcome<seq<NewsItem>, string>)
    ensures r.Err? <==> forall l :: l in Split(text, '\n') ==> !IsHeadlineLine(l)
    ensures r.Err? ==> r.error == NoHeadlinesMessage
    ensures r.Ok? ==> 1 <= |r.value| <= MaxHeadlines
    ensures r.Ok? ==> var n := |KeepLong(Split(text, '\n'))|;
      |r.value| == if n <= MaxHeadlines then n else MaxHeadlines
    ensures r.Ok? ==> var kept := KeepLong(Split(text, '\n'));
      |r.value| <= |kept| &&
      forall k :: 0 <= k < |r.value| ==>
        && kept[k] in Split(text, '\n') && IsHeadlineLine(kept[k])
        && r.value[k] == NewsItem(CleanTitle(kept[k]), UrlFor(chunkUris, k))
  {
    var lines := Split(text, '\n');
    KeptLines(lines);
    var items := MakeItems(KeepLong(lines), chunkUris);
    if |items| == 0 then Err(NoHeadlinesMessage) else Ok(items)
  }

  /** The outcome of one fetch: a missing or empty API key fails before the
      service is asked; a thrown error surfaces its message, or a generic one
      when it has none; otherwise the reply is parsed. */
  function FetchOutcome(apiKey: Option<string>, reply: Reply): (r: Outcome<seq<NewsItem>, string>)
    ensures apiKey.None? || apiKey == Some("") ==> r == Err(MissingKeyMessage)
    ensures r.Err? ==> r.error != ""
    ensures r.Ok? ==> 1 <= |r.value| <= MaxHeadlines && apiKey.Some? && apiKey.value != "" && reply.Answered?
    ensures apiKey.Some? && apiKey.value != "" && reply.Failed? ==>
      r == Err(if reply.message == "" then GenericFailureMessage else reply.message)
    ensures apiKey.Some? && apiKey.value != "" && reply.Answered? ==> r == ParseHeadlines(reply.text, reply.chunkUris)
  {
    if apiKey.None? || apiKey.value == "" then Err(MissingKeyMessage)
    else
      match reply
      case Failed(message) => Err(if message == "" then GenericFailureMessage else message)
      case Answered(text, chunkUris) => ParseHeadlines(text, chunkUris)
  }

  /** Without an API key the reply plays no part: no request is made. */
  lemma MissingKeyMakesNoRequest(apiKey: Option<string>, reply1: Reply, reply2: Reply)
    requires apiKey.None? || apiKey == Some("")
    ensures FetchOutcome(apiKey, reply1) == FetchOutcome(apiKey, reply2) == Err(MissingKeyMessage)
  {}
}
