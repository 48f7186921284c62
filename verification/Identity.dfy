/** Stream headers, history keys, and request ids. */
module Identity {
  import opened Rows
  import Text

  datatype Error =
    | InvalidStreamId
    | InvalidLastEventId
    | MissingStreamId
    | MissingResource
    | StreamIdConflict
    | StreamNotFound

  datatype Result<+T> = Ok(value: T) | Err(error: Error)

  // ----- header values

  predicate IsStreamChar(c: char) {
    'A' <= c <= 'Z' || 'a' <= c <= 'z' || '0' <= c <= '9' || c == '_' || c == '-'
  }

  /** The documented form: one to 128 URL-safe characters. */
  predicate UrlSafe(s: string) {
    1 <= |s| <= 128 && forall c :: c in s ==> IsStreamChar(c)
  }

  /** How many characters of the class the pattern consumes, at most 128. */
  function ClassRun(s: string, n: nat): nat {
    if s == "" || n == 0 || !IsStreamChar(s[0]) then 0 else 1 + ClassRun(s[1..], n - 1)
  }

  /** The pattern's end anchor matches at the end of the text and also before a final line feed. */
  predicate AtEnd(s: string) {
    s == "" || s == "\n"
  }

  /** Some run of 1 to 128 class characters is followed by the end anchor. */
  predicate PatternMatches(s: string) {
    exists k :: 1 <= k <= ClassRun(s, 128) && k <= |s| && AtEnd(s[k..])
  }

  lemma {:induction false} ClassRunSpan(s: string, n: nat)
    ensures ClassRun(s, n) <= |s| && ClassRun(s, n) <= n
    ensures forall i :: 0 <= i < ClassRun(s, n) ==> IsStreamChar(s[i])
    ensures ClassRun(s, n) < |s| && ClassRun(s, n) < n ==> !IsStreamChar(s[ClassRun(s, n)])
  {
    if s != "" && n > 0 && IsStreamChar(s[0]) {
      ClassRunSpan(s[1..], n - 1);
      assert forall i :: 0 < i < ClassRun(s, n) ==> s[i] == s[1..][i - 1];
    }
  }

  lemma RunIsSafe(s: string, k: nat)
    requires 1 <= k <= ClassRun(s, 128) && k <= |s|
    ensures UrlSafe(s[..k])
  {
    ClassRunSpan(s, 128);
    assert forall i :: 0 <= i < k ==> s[..k][i] == s[i];
  }

  lemma AcceptedIsSafe(s: string)
    requires PatternMatches(s)
    ensures UrlSafe(s) || (s != "" && s[|s| - 1] == '\n' && UrlSafe(s[..|s| - 1]))
  {
    var k :| 1 <= k <= ClassRun(s, 128) && k <= |s| && AtEnd(s[k..]);
    RunIsSafe(s, k);
    if s[k..] == "" {
      assert s[..k] == s;
    } else {
      assert |s| == k + 1 && s[k] == s[k..][0];
    }
  }

  lemma SafeIsAccepted(s: string)
    requires UrlSafe(s)
    ensures PatternMatches(s) && PatternMatches(s + "\n")
  {
    RunCovers(s, |s|);
    assert AtEnd(s[|s|..]);
    var t := s + "\n";
    assert t[..|s|] == s;
    RunCovers(t, |s|);
    assert t[|s|..] == "\n";
  }

  /** The validator accepts the documented form, and the documented form followed by one line feed, and nothing else. */
  lemma ValidatorAccepts(s: string)
    ensures PatternMatches(s) <==> UrlSafe(s) || (s != "" && s[|s| - 1] == '\n' && UrlSafe(s[..|s| - 1]))
  {
    if PatternMatches(s) {
      AcceptedIsSafe(s);
    }
    if UrlSafe(s) {
      SafeIsAccepted(s);
    }
    if s != "" && s[|s| - 1] == '\n' && UrlSafe(s[..|s| - 1]) {
      SafeIsAccepted(s[..|s| - 1]);
      assert s[..|s| - 1] + "\n" == s;
    }
  }

  lemma RunCovers(s: string, k: nat)
    requires k <= |s| && k <= 128 && forall i :: 0 <= i < k ==> s[..k][i] in s[..k] && IsStreamChar(s[..k][i])
    ensures ClassRun(s, 128) >= k
  {
    ClassRunSpan(s, 128);
    assert forall i :: 0 <= i < k ==> s[..k][i] == s[i];
  }

  function ValidateStreamId(s: string): Result<string> {
    if PatternMatches(s) then Ok(s) else Err(InvalidStreamId)
  }

  function ValidateLastEventId(header: Option<string>): Result<Option<int>> {
    match header
    case None => Ok(None)
    case Some(text) =>
      match Text.ParseInt(text)
      case None => Err(InvalidLastEventId)
      case Some(n) => if n < 0 then Err(InvalidLastEventId) else Ok(Some(n))
  }

  // ----- history keys

  datatype Endpoint = OpenAi | Conv

  function BuildHistoryKey(endpoint: Endpoint, user: int, sid: string, resource: Option<int>): Result<string> {
    match endpoint
    case OpenAi => Ok("openai:" + Text.Dec(user) + ":" + sid)
    case Conv =>
      if resource == None then Err(MissingResource)
      else Ok("conv:" + Text.Dec(user) + ":" + Text.Dec(resource.value) + ":" + sid)
  }

  /** After a common prefix, the part before the next colon and the part after it are both determined. */
  lemma SameAfterPrefix(prefix: string, d: string, rest: string, d': string, rest': string)
    requires ':' !in d && ':' !in d'
    requires prefix + d + ":" + rest == prefix + d' + ":" + rest'
    ensures d == d' && rest == rest'
  {
    var a, b := d + [':'] + rest, d' + [':'] + rest';
    assert prefix + d + ":" + rest == prefix + a;
    assert prefix + d' + ":" + rest' == prefix + b;
    assert (prefix + a)[|prefix|..] == a && (prefix + b)[|prefix|..] == b;
    Text.CutFirst(d, rest, d', rest', ':');
  }

  lemma SameNumber(n: int, n': int)
    ensures ':' !in Text.Dec(n) && ':' !in Text.Dec(n')
    ensures Text.Dec(n) == Text.Dec(n') ==> n == n'
  {
    Text.DecIsClean(n, ':');
    Text.DecIsClean(n', ':');
    if Text.Dec(n) == Text.Dec(n') {
      Text.DecInjective(n, n');
    }
  }

  lemma ConvKeyInjective(u: string, r: string, sid: string, u': string, r': string, sid': string)
    requires ':' !in u && ':' !in u' && ':' !in r && ':' !in r'
    requires "conv:" + u + ":" + r + ":" + sid == "conv:" + u' + ":" + r' + ":" + sid'
    ensures u == u' && r == r' && sid == sid'
  {
    var tail, tail' := r + ":" + sid, r' + ":" + sid';
    assert "conv:" + u + ":" + r + ":" + sid == "conv:" + u + ":" + tail;
    assert "conv:" + u' + ":" + r' + ":" + sid' == "conv:" + u' + ":" + tail';
    SameAfterPrefix("conv:", u, tail, u', tail');
    assert tail == "" + r + ":" + sid && tail' == "" + r' + ":" + sid';
    SameAfterPrefix("", r, sid, r', sid');
  }

  /** Two streams share a history key only if they are the same stream of the same owner. */
  lemma HistoryKeyInjective(e: Endpoint, u: int, sid: string, res: Option<int>,
                            e': Endpoint, u': int, sid': string, res': Option<int>)
    requires BuildHistoryKey(e, u, sid, res).Ok?
    requires BuildHistoryKey(e, u, sid, res) == BuildHistoryKey(e', u', sid', res')
    ensures e == e' && u == u' && sid == sid' && (e.Conv? ==> res == res')
  {
    var key := BuildHistoryKey(e, u, sid, res).value;
    assert e.OpenAi? <==> key[0] == 'o';
    assert e'.OpenAi? <==> key[0] == 'o';
    SameNumber(u, u');
    if e.OpenAi? {
      SameAfterPrefix("openai:", Text.Dec(u), sid, Text.Dec(u'), sid');
    } else {
      SameNumber(res.value, res'.value);
      ConvKeyInjective(Text.Dec(u), Text.Dec(res.value), sid, Text.Dec(u'), Text.Dec(res'.value), sid');
    }
  }

  // ----- resolving a request

  datatype StreamIdentity = StreamIdentity(streamId: string, historyKey: string, lastEventId: Option<int>,
                                           isReconnect: bool)

  function Resolve(endpoint: Endpoint, user: int, streamId: Option<string>, lastEventId: Option<string>,
                   resource: Option<int>, generated: string, hasHistory: string -> bool): Result<StreamIdentity>
  {
    match ValidateLastEventId(lastEventId)
    case Err(e) => Err(e)
    case Ok(last) =>
      if last.Some? && (streamId == None || streamId == Some("")) then Err(MissingStreamId)
      else if streamId.Some? then
        match ValidateStreamId(streamId.value)
        case Err(e) => Err(e)
        case Ok(sid) =>
          match BuildHistoryKey(endpoint, user, sid, resource)
          case Err(e) => Err(e)
          case Ok(key) =>
            if hasHistory(key) && last == None then Err(StreamIdConflict)
            else if last.Some? && !hasHistory(key) then Err(StreamNotFound)
            else Ok(StreamIdentity(sid, key, last, last.Some?))
      else
        match BuildHistoryKey(endpoint, user, generated, resource)
        case Err(e) => Err(e)
        case Ok(key) => Ok(StreamIdentity(generated, key, None, false))
  }

  /** A caller-chosen stream starts only without history and resumes only with it; there is no other way in. */
  lemma ResolveSeparatesStartFromResume(endpoint: Endpoint, user: int, sid: string, lastEventId: Option<string>,
                                        resource: Option<int>, generated: string, hasHistory: string -> bool)
    ensures var r := Resolve(endpoint, user, Some(sid), lastEventId, resource, generated, hasHistory);
            var key := BuildHistoryKey(endpoint, user, sid, resource);
            && (r.Ok? && r.value.isReconnect <==>
                  lastEventId.Some? && Text.ParseInt(lastEventId.value).Some?
                  && Text.ParseInt(lastEventId.value).value >= 0
                  && PatternMatches(sid) && key.Ok? && hasHistory(key.value))
            && (r.Ok? && !r.value.isReconnect <==>
                  lastEventId == None && PatternMatches(sid) && key.Ok? && !hasHistory(key.value))
            && (r.Ok? ==> r.value.historyKey == key.value && r.value.streamId == sid)
            && (r == Err(StreamIdConflict) ==> lastEventId == None && hasHistory(key.value))
  {
    ValidatorAccepts("");
  }

  /** The key that belongs to a stream of an owner. */
  function KeyText(endpoint: Endpoint, user: int, sid: string, resource: Option<int>): string {
    match endpoint
    case OpenAi => "openai:" + Text.Dec(user) + ":" + sid
    case Conv => "conv:" + Text.Dec(user) + ":" + Text.Dec(if resource.Some? then resource.value else 0) + ":" + sid
  }

  /** The header is absent, or a non-negative integer. */
  predicate HeaderFits(lastEventId: Option<string>) {
    lastEventId.Some? ==> Text.ParseInt(lastEventId.value).Some? && Text.ParseInt(lastEventId.value).value >= 0
  }

  /** The documented form, or that followed by one line feed. */
  predicate Acceptable(sid: string) {
    UrlSafe(sid) || (sid != "" && sid[|sid| - 1] == '\n' && UrlSafe(sid[..|sid| - 1]))
  }

  /** Every request falls into exactly one case, told from its two headers and the history. */
  lemma ResolveCases(endpoint: Endpoint, user: int, streamId: Option<string>, lastEventId: Option<string>,
                     resource: Option<int>, generated: string, hasHistory: string -> bool)
    ensures var r := Resolve(endpoint, user, streamId, lastEventId, resource, generated, hasHistory);
            var unnamed := streamId == None || streamId == Some("");
            var sid := if streamId.Some? then streamId.value else generated;
            var key := KeyText(endpoint, user, sid, resource);
            if !HeaderFits(lastEventId) then r == Err(InvalidLastEventId)
            else if lastEventId.Some? && unnamed then r == Err(MissingStreamId)
            else if streamId.Some? && !Acceptable(sid) then r == Err(InvalidStreamId)
            else if endpoint.Conv? && resource == None then r == Err(MissingResource)
            else if streamId == None then r == Ok(StreamIdentity(generated, key, None, false))
            else if lastEventId == None then
              r == if hasHistory(key) then Err(StreamIdConflict) else Ok(StreamIdentity(sid, key, None, false))
            else
              r == if !hasHistory(key) then Err(StreamNotFound)
                   else Ok(StreamIdentity(sid, key, Text.ParseInt(lastEventId.value), true))
  {
    if streamId.Some? {
      ValidatorAccepts(streamId.value);
    }
  }

  // ----- request ids and cancelling by prefix

  function ChatPrefix(conversation: int): string {
    "chat:" + Text.Dec(conversation) + ":"
  }

  function ChatRequestId(conversation: int, sid: string): string {
    ChatPrefix(conversation) + sid
  }

  function CompletionId(hex: string): string {
    "chatcmpl-" + hex
  }

  /** A conversation's prefix selects its own request ids, no other conversation's, and no completion's. */
  lemma PrefixSelectsOneConversation(conversation: int, other: int, sid: string, hex: string)
    ensures ChatPrefix(conversation) <= ChatRequestId(other, sid) <==> conversation == other
    ensures !(ChatPrefix(conversation) <= CompletionId(hex))
  {
    var p, id := ChatPrefix(conversation), ChatRequestId(other, sid);
    if p <= id {
      var rest := id[|p|..];
      assert id == "chat:" + Text.Dec(conversation) + ":" + rest;
      assert id == "chat:" + Text.Dec(other) + ":" + sid;
      SameNumber(conversation, other);
      SameAfterPrefix("chat:", Text.Dec(conversation), rest, Text.Dec(other), sid);
    }
    assert p[4] == ':' && CompletionId(hex)[4] == 'c';
  }
}
