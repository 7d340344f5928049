/**
 The API client: request headers, the decision that turns a fetch outcome
 into a returned body or a thrown message, the translation of server messages,
 the status-code phrases, the capped activity log kept in local storage,
 relative-time labels, and the claims read out of the stored bearer token.

 The network, local storage and the base64/JSON decoding of the token are not
 modelled: a fetch outcome is an input record, storage slots are passed in and
 handed back, and token decoding is a function parameter.
 */
module Api {
  import opened JsValues
  import opened Text

  // ---------------------------------------------------------------------------
  // Headers

  type Headers = map<string, string>

  /** `getAuthHeaders()`: JSON content type, plus a bearer token when one is set. */
  function AuthHeaders(token: Option<string>): (h: Headers)
    ensures "Content-Type" in h && h["Content-Type"] == "application/json"
    ensures "Authorization" in h <==> Truthy(token)
    ensures Truthy(token) ==> h["Authorization"] == "Bearer " + token.value
    ensures h.Keys <= {"Content-Type", "Authorization"}
  {
    var base := map["Content-Type" := "application/json"];
    if Truthy(token) then base["Authorization" := "Bearer " + token.value] else base
  }

  /** The caller's options: `headers` is `None` when the property is absent. */
  datatype RequestOptions = RequestOptions(verb: string, headers: Option<Headers>)

  /**
   The headers `request` sends: `{ headers: { ...getAuthHeaders(), ...options.headers }, ...options }`.
   The merged object is built first, but the later spread of `options` replaces
   it with the caller's own `headers` object whenever the caller gave one; when
   the caller gave none, spreading `undefined` adds nothing to the defaults.
   */
  function RequestHeaders(token: Option<string>, options: RequestOptions): (h: Headers)
    ensures options.headers.Some? ==> h == options.headers.value
    ensures options.headers.None? ==> h == AuthHeaders(token)
  {
    if options.headers.Some? then options.headers.value else AuthHeaders(token)
  }

  /** `register` passes `headers: {}`, so nothing is added: no content type and no bearer token. */
  lemma RegisterSendsNoHeaders(token: Option<string>)
    ensures RequestHeaders(token, RequestOptions("POST", Some(map[]))) == map[]
    ensures "Authorization" !in RequestHeaders(token, RequestOptions("POST", Some(map[])))
  {
  }

  // ---------------------------------------------------------------------------
  // Message translation

  /**
   The translation table, in declaration order (the order the lookup tries the
   keys): key `TranslationKeys[j]` is translated to `TranslatedTexts[j]`.
   */
  const TranslationKeys: seq<string> := [
    "DuplicateUserName",
    "Invalid email or password",
    "Email already exists",
    "User not found",
    "Invalid OTP",
    "OTP expired",
    "Unauthorized",
    "Access denied",
    "Invalid token",
    "Token expired",
    "Forbidden",
    "Not found",
    "Internal server error",
    "Bad request",
    "Service unavailable",
    "Network error",
    "Validation failed",
    "File too large",
    "Invalid file type",
    "Missing required field"
  ]

  const TranslatedTexts: seq<string> := [
    "البريد الإلكتروني مستخدم من قبل",
    "البريد الإلكتروني أو كلمة المرور غير صحيحة",
    "البريد الإلكتروني موجود مسبقاً",
    "المستخدم غير موجود",
    "رمز التحقق غير صحيح",
    "انتهت صلاحية رمز التحقق",
    "غير مصرح لك بالوصول",
    "تم رفض الوصول",
    "رمز المصادقة غير صالح",
    "انتهت صلاحية رمز المصادقة",
    "ممنوع الوصول",
    "غير موجود",
    "خطأ في الخادم الداخلي",
    "طلب غير صالح",
    "الخدمة غير متاحة",
    "خطأ في الشبكة",
    "فشل في التحقق من البيانات",
    "حجم الملف كبير جداً",
    "نوع الملف غير مدعوم",
    "حقل مطلوب مفقود"
  ]

  /** Table entry `key` applies to `message`: equal, or contained ignoring case; an empty message matches nothing. */
  predicate KeyMatches(message: string, key: string) {
    message != "" && (message == key || ContainsIgnoringCase(message, key))
  }

  predicate EntryMatches(message: string, j: int)
    requires 0 <= j < |TranslationKeys|
  {
    KeyMatches(message, TranslationKeys[j])
  }

  /** The first table position at or after `i` whose key applies to `message`. */
  function FirstMatchFrom(message: string, i: nat): (r: Option<nat>)
    requires i <= |TranslationKeys|
    ensures r.Some? ==> i <= r.value < |TranslationKeys| && EntryMatches(message, r.value)
    ensures r.Some? ==> forall k :: i <= k < r.value ==> !EntryMatches(message, k)
    ensures r.None? ==> forall k :: i <= k < |TranslationKeys| ==> !EntryMatches(message, k)
    decreases |TranslationKeys| - i
  {
    if i == |TranslationKeys| then None
    else if EntryMatches(message, i) then Some(i)
    else FirstMatchFrom(message, i + 1)
  }

  /**
   `translateErrorMessage(message)`: the translation of the first key, in table
   order, that applies; the message itself when none does.
   */
  function Translate(message: string): (r: string)
    ensures (forall k :: 0 <= k < |TranslationKeys| ==> !EntryMatches(message, k)) ==> r == message
    ensures forall j :: 0 <= j < |TranslationKeys| && EntryMatches(message, j)
                        && (forall k :: 0 <= k < j ==> !EntryMatches(message, k))
                        ==> r == TranslatedTexts[j]
    ensures message != "" ==> r != ""
  {
    TranslatedTextsNonEmpty();
    match FirstMatchFrom(message, 0)
    case Some(j) =>
      FirstMatchUnique(message, j);
      TranslatedTexts[j]
    case None => message
  }

  /** Every translation in the table is a non-empty text. */
  lemma TranslatedTextsNonEmpty()
    ensures |TranslatedTexts| == |TranslationKeys|
    ensures forall j :: 0 <= j < |TranslatedTexts| ==> TranslatedTexts[j] != ""
  {
  }

  /** Only one position can be the first whose key applies. */
  lemma FirstMatchUnique(message: string, j: nat)
    requires j < |TranslationKeys| && EntryMatches(message, j)
    requires forall k :: 0 <= k < j ==> !EntryMatches(message, k)
    ensures forall i :: 0 <= i < |TranslationKeys| && EntryMatches(message, i)
                        && (forall k :: 0 <= k < i ==> !EntryMatches(message, k))
                        ==> i == j
  {
  }

  /** "User not found" is caught by its own key, the fourth of the table. */
  lemma TranslateUserNotFound()
    ensures Translate("User not found") == "المستخدم غير موجود"
  {
    var m := "User not found";
    forall k | 0 <= k < 3
      ensures !EntryMatches(m, k)
    {
      assert |Lower(TranslationKeys[k])| > |Lower(m)|;
    }
    assert EntryMatches(m, 3);
  }

  /** The later, shorter key "Not found" applies to "User not found" as well; only the table order decides. */
  lemma NotFoundKeyAlsoApplies()
    ensures EntryMatches("User not found", 11)
  {
    var m := "User not found";
    var n := "Not found";
    LowerSlice(m, 5, 14);
    assert m[5..14] == "not found";
    assert Lower("not found") == Lower(n) by {
      forall i | 0 <= i < 9
        ensures Lower("not found")[i] == Lower(n)[i]
      {
      }
    }
    assert OccursAt(Lower(m), Lower(n), 5);
  }

  lemma TranslateDuplicateUserName()
    ensures Translate("DuplicateUserName") == "البريد الإلكتروني مستخدم من قبل"
  {
    assert EntryMatches("DuplicateUserName", 0);
  }

  /** A key with a character (after lower-casing) that the message lacks cannot apply to it. */
  lemma KeyMissingCharacter(message: string, key: string, p: nat)
    requires p < |key| && LowerChar(key[p]) !in Lower(message)
    ensures !KeyMatches(message, key)
  {
  }

  lemma LowerFailedToFetch()
    ensures Lower(FailedToFetch) == "failed to fetch"
  {
    forall i | 0 <= i < |FailedToFetch|
      ensures Lower(FailedToFetch)[i] == "failed to fetch"[i]
    {
    }
  }

  /**
   For each key, the position of a letter that "failed to fetch" lacks even
   after lower-casing.
   */
  const LetterMissingFromFailedToFetch: seq<nat> := [1, 1, 1, 0, 1, 2, 0, 4, 1, 2, 2, 0, 1, 0, 0, 0, 0, 11, 1, 0]

  /** Every key has a letter that "failed to fetch" lacks, so none applies to it. */
  lemma FailedToFetchMissesEveryKey()
    ensures forall k :: 0 <= k < |TranslationKeys| ==> !EntryMatches(FailedToFetch, k)
  {
    LowerFailedToFetch();
    forall k | 0 <= k < |TranslationKeys|
      ensures !EntryMatches(FailedToFetch, k)
    {
      KeyMissingCharacter(FailedToFetch, TranslationKeys[k], LetterMissingFromFailedToFetch[k]);
    }
  }

  /** No key applies to "Failed to fetch", so the lookup hands it back unchanged. */
  lemma TranslateFailedToFetch()
    ensures Translate(FailedToFetch) == FailedToFetch
  {
    FailedToFetchMissesEveryKey();
  }

  // ---------------------------------------------------------------------------
  // Status phrases

  const StatusTexts: map<int, string> := map[
    400 := "طلب غير صالح",
    401 := "غير مصرح",
    403 := "ممنوع",
    404 := "غير موجود",
    413 := "حجم الملف كبير جداً",
    415 := "نوع الملف غير مدعوم",
    422 := "بيانات غير صالحة",
    500 := "خطأ في الخادم",
    502 := "خطأ في البوابة",
    503 := "الخدمة غير متاحة"
  ]

  const UnknownStatusText: string := "خطأ غير معروف"

  /** `getStatusText(status)`: the phrase of a listed status, the unknown-error phrase otherwise. */
  function StatusText(status: int): (r: string)
    ensures r != ""
    ensures status in StatusTexts ==> r == StatusTexts[status]
    ensures r == UnknownStatusText <==> status !in {400, 401, 403, 404, 413, 415, 422, 500, 502, 503}
  {
    StatusTextsListed();
    if status in StatusTexts then StatusTexts[status] else UnknownStatusText
  }

  /** The table lists exactly the ten statuses, none with an empty or the unknown-error phrase. */
  lemma StatusTextsListed()
    ensures StatusTexts.Keys == {400, 401, 403, 404, 413, 415, 422, 500, 502, 503}
    ensures forall status | status in StatusTexts :: StatusTexts[status] != "" && StatusTexts[status] != UnknownStatusText
  {
  }

  /** A few statuses with their own phrase. */
  lemma StatusTextExamples()
    ensures StatusText(404) == "غير موجود"
    ensures StatusText(500) == "خطأ في الخادم"
    ensures StatusText(418) == UnknownStatusText
  {
  }

  // ---------------------------------------------------------------------------
  // request

  /**
   A parsed JSON value, as far as `request` looks into it: `null` (any access
   throws), or a value with the optional `[0].code`, `.message` and `.error`
   properties.
   */
  datatype Json = JsonNull | JsonValue(firstCode: Option<string>, message: Option<string>, error: Option<string>)

  /** The outcome of `JSON.parse` on the body text. */
  datatype Parse = NotJson(syntaxError: string) | Parsed(json: Json)

  /** Reading the body: it fails with a message, or gives the text and its parse. */
  datatype Body = Unreadable(readError: string) | Readable(text: string, parse: Parse)

  datatype Response = Response(ok: bool, status: int, contentType: Option<string>, body: Body)

  /** What `fetch` does: reject with an error message, or resolve with a response. */
  datatype Fetched = Rejected(reason: string) | Responded(response: Response)

  /** A successful body: parsed JSON, or `{ message: text }` for any other content type. */
  datatype Payload = JsonPayload(json: Json) | TextPayload(message: string)

  /** `request` returns a payload or throws an `Error` with a message. */
  datatype Outcome = Returned(payload: Payload) | Thrown(message: string)

  const FailedToFetch: string := "Failed to fetch"
  const ConnectionFailedMessage: string := "فشل في الاتصال بالخادم. تأكد من اتصالك بالإنترنت"

  const ErrorWord: string := "خطأ "

  /**
   `خطأ <status>: <status phrase>`: the error word, the status as `toString`
   renders it, then the status phrase.
   */
  function StatusFallback(status: int): (m: string)
    ensures |m| == |ErrorWord| + |IntToString(status)| + 2 + |StatusText(status)|
    ensures m[..|ErrorWord|] == ErrorWord
    ensures OccursAt(m, IntToString(status), |ErrorWord|)
    ensures m[|ErrorWord| + |IntToString(status)|] == ':'
    ensures m[|ErrorWord| + |IntToString(status)| + 1] == ' '
    ensures m[|m| - |StatusText(status)|..] == StatusText(status)
  {
    var m := ErrorWord + IntToString(status) + ": " + StatusText(status);
    assert m[|ErrorWord| + |IntToString(status)|] == ':';
    assert m[|ErrorWord| + |IntToString(status)| + 1] == ' ';
    m
  }

  /** The status can be read back from the fallback message: different statuses give different messages. */
  lemma {:induction false} StatusFallbackIdentifiesStatus(a: int, b: int)
    requires StatusFallback(a) == StatusFallback(b)
    ensures a == b
  {
    var m := StatusFallback(a);
    var sa, sb := IntToString(a), IntToString(b);
    var w := |ErrorWord|;
    if |sa| != |sb| {
      assert false;
    }
    assert sa == m[w..w + |sa|] == sb;
    IntToStringInjective(a, b);
  }

  /**
   The message of a non-2xx response, read from the body when possible. It is
   never empty, except for a JSON body whose text is empty, which `JSON.parse`
   never accepts.
   */
  function ErrorMessage(r: Response): (m: string)
    ensures r.body.Unreadable? ==> m == StatusFallback(r.status)
    ensures !(r.body.Readable? && r.body.parse.Parsed? && r.body.parse.json.JsonValue? && r.body.text == "")
            ==> m != ""
  {
    match r.body
    case Unreadable(_) => StatusFallback(r.status)
    case Readable(text, Parsed(JsonValue(code, message, error))) =>
      Translate(Or(Or(Or(code, message), error), Some(text)).value)
    case Readable(text, _) =>
      // Not JSON, or JSON `null` whose property access throws into the same catch.
      var t := Translate(text);
      if t != "" then t else StatusFallback(r.status)
  }

  /** `contentType && contentType.includes("application/json")`. */
  predicate IsJsonType(contentType: Option<string>) {
    Truthy(contentType) && Contains(contentType.value, "application/json")
  }

  /**
   The body of a 2xx response: it throws only when the body cannot be read, or
   when a JSON content type carries text that does not parse.
   */
  function SuccessOutcome(r: Response): (o: Outcome)
    ensures o.Thrown? <==> r.body.Unreadable? || (IsJsonType(r.contentType) && r.body.parse.NotJson?)
    ensures o.Returned? && IsJsonType(r.contentType) ==> o.payload == JsonPayload(r.body.parse.json)
    ensures o.Returned? && !IsJsonType(r.contentType) ==> o.payload == TextPayload(r.body.text)
  {
    if IsJsonType(r.contentType) then
      match r.body
      case Unreadable(e) => Thrown(e)
      case Readable(_, NotJson(e)) => Thrown(e)
      case Readable(_, Parsed(json)) => Returned(JsonPayload(json))
    else
      match r.body
      case Unreadable(e) => Thrown(e)
      case Readable(text, _) => Returned(TextPayload(text))
  }

  /**
   The `try` block of `request`, before its `catch` runs: only a 2xx response
   can return, and a failed response throws its error message.
   */
  function Attempt(f: Fetched): (o: Outcome)
    ensures o.Returned? ==> f.Responded? && f.response.ok
    ensures f.Rejected? ==> o == Thrown(f.reason)
    ensures f.Responded? && !f.response.ok ==> o == Thrown(ErrorMessage(f.response))
  {
    match f
    case Rejected(reason) => Thrown(reason)
    case Responded(r) => if !r.ok then Thrown(ErrorMessage(r)) else SuccessOutcome(r)
  }

  /**
   `request`: the outcome of the `try` block, except that an error whose message
   is exactly "Failed to fetch" is replaced by the connection-failure message.
   */
  function Request(f: Fetched): (o: Outcome)
    ensures o.Thrown? ==> o.message != FailedToFetch
    ensures o.Returned? <==> Attempt(f).Returned?
    ensures o.Returned? ==> f.Responded? && f.response.ok
    ensures Attempt(f).Returned? ==> o == Attempt(f)
    ensures Attempt(f).Thrown? && Attempt(f).message != FailedToFetch ==> o == Attempt(f)
    ensures Attempt(f) == Thrown(FailedToFetch) ==> o == Thrown(ConnectionFailedMessage)
  {
    var a := Attempt(f);
    if a.Thrown? && a.message == FailedToFetch then Thrown(ConnectionFailedMessage) else a
  }

  // ---------------------------------------------------------------------------
  // Activity log

  const MaxActivities: nat := 50

  /** One logged activity; `id` and `time` are the clock reading when it was logged. */
  datatype Activity = Activity(
    id: int, kind: string, title: string, details: string, time: int,
    userId: Option<string>, userName: string)

  /** `${x}` for a possibly missing string property. */
  function Interpolate(o: Option<string>): string {
    if o.Some? then o.value else "undefined"
  }

  /** `user?.k`: the property of a signed-in user, `undefined` when signed out or absent. */
  function Property(user: Option<UserRecord>, k: string): Option<string> {
    if user.Some? && k in user.value then user.value[k] else None
  }

  /**
   The entry `logActivity` builds for the current user (`None` when signed
   out): the given kind, title and details, the clock reading as id and time,
   and the user's id and full name.
   */
  function NewActivity(kind: string, title: string, details: string, now: int, user: Option<UserRecord>): (a: Activity)
    ensures a.kind == kind && a.title == title && a.details == details
    ensures a.id == now && a.time == now
    ensures user.Some? && "id" in user.value ==> a.userId == user.value["id"]
    ensures user.Some? && "firstName" in user.value && "lastName" in user.value
            && user.value["firstName"].Some? && user.value["lastName"].Some?
            ==> a.userName == user.value["firstName"].value + " " + user.value["lastName"].value
    ensures user.None? ==> a.userId.None? && a.userName == "undefined undefined"
  {
    Activity(now, kind, title, details, now, Property(user, "id"),
             Interpolate(Property(user, "firstName")) + " " + Interpolate(Property(user, "lastName")))
  }

  function Min(a: int, b: int): int {
    if a < b then a else b
  }

  /** `logActivity`: the new entry goes first, and the list is cut to its first fifty entries. */
  function LogActivity(log: seq<Activity>, entry: Activity): (r: seq<Activity>)
    ensures |r| == Min(|log| + 1, MaxActivities)
    ensures r[0] == entry
    ensures r[1..] == log[..|r| - 1]
  {
    var extended := [entry] + log;
    if |extended| > MaxActivities then extended[..MaxActivities] else extended
  }

  /** However many activities are logged, the log never holds more than fifty. */
  lemma {:induction false} LogStaysCapped(log: seq<Activity>, entries: seq<Activity>)
    requires |log| <= MaxActivities
    ensures |LogAll(log, entries)| <= MaxActivities
    ensures |entries| > 0 ==> LogAll(log, entries)[0] == entries[|entries| - 1]
    decreases |entries|
  {
    if |entries| > 0 {
      LogStaysCapped(log, entries[..|entries| - 1]);
    }
  }

  /** Logging `entries` one after another, oldest first. */
  function LogAll(log: seq<Activity>, entries: seq<Activity>): seq<Activity>
    decreases |entries|
  {
    if |entries| == 0 then log else LogActivity(LogAll(log, entries[..|entries| - 1]), entries[|entries| - 1])
  }

  // ---------------------------------------------------------------------------
  // Relative time

  const MinuteMs: nat := 60 * 1000

  /** The bucket `getTimeAgo` reports, with its count. */
  datatype Ago = JustNow | MinutesAgo(n: nat) | HoursAgo(n: nat) | DaysAgo(n: nat) | WeeksAgo(n: nat) | MonthsAgo(n: nat)

  /** Rounding down to minutes and then to hours equals rounding down to hours, and so on. */
  lemma FloorSteps(diffMs: int)
    ensures diffMs / 60000 / 60 == diffMs / 3600000
    ensures diffMs / 3600000 / 24 == diffMs / 86400000
    ensures diffMs / 86400000 / 7 == diffMs / 604800000
    ensures diffMs / 86400000 / 30 == diffMs / 2592000000
  {
  }

  /**
   `getTimeAgo` on a difference of `diffMs` milliseconds: whole minutes, then
   hours, days and weeks, each rounded down from the previous one; beyond four
   weeks, the days divided by thirty.
   */
  function AgoOf(diffMs: int): (a: Ago)
    ensures a == JustNow <==> diffMs < MinuteMs
    ensures a.MinutesAgo? ==> 1 <= a.n < 60 && a.n == diffMs / MinuteMs
    ensures a.HoursAgo? ==> 1 <= a.n < 24 && a.n == diffMs / (60 * MinuteMs)
    ensures a.DaysAgo? ==> 1 <= a.n < 7 && a.n == diffMs / (24 * 60 * MinuteMs)
    ensures a.WeeksAgo? ==> 1 <= a.n < 4 && a.n == diffMs / (7 * 24 * 60 * MinuteMs)
    ensures a.MonthsAgo? ==> diffMs >= 28 * 24 * 60 * MinuteMs && a.n == diffMs / (30 * 24 * 60 * MinuteMs)
  {
    var minutes := diffMs / MinuteMs;
    FloorSteps(diffMs);
    if minutes < 1 then JustNow
    else if minutes < 60 then MinutesAgo(minutes)
    else
      var hours := minutes / 60;
      if hours < 24 then HoursAgo(hours)
      else
        var days := hours / 24;
        if days < 7 then DaysAgo(days)
        else
          var weeks := days / 7;
          if weeks < 4 then WeeksAgo(weeks) else MonthsAgo(days / 30)
  }

  /** Days 28 and 29 fall past the weeks bucket but round down to zero months. */
  lemma ZeroMonthsAfterFourWeeks(diffMs: int)
    requires 28 * 24 * 60 * MinuteMs <= diffMs < 30 * 24 * 60 * MinuteMs
    ensures AgoOf(diffMs) == MonthsAgo(0)
    ensures TimeAgo(diffMs) == "منذ 0 شهر"
  {
    var a := AgoOf(diffMs);
    assert diffMs / (7 * 24 * 60 * MinuteMs) >= 4;
    assert NatToString(0) == "0";
  }

  const NowLabel: string := "الآن"
  const AgoWord: string := "منذ "

  /** The unit word of a bucket. */
  function UnitWord(a: Ago): string {
    match a
    case JustNow => ""
    case MinutesAgo(_) => "دقيقة"
    case HoursAgo(_) => "ساعة"
    case DaysAgo(_) => "يوم"
    case WeeksAgo(_) => "أسبوع"
    case MonthsAgo(_) => "شهر"
  }

  /**
   `getTimeAgo`'s label: "now" exactly under a minute; otherwise "ago", the
   count, and the unit word of the bucket.
   */
  function TimeAgo(diffMs: int): (r: string)
    ensures r == NowLabel <==> diffMs < MinuteMs
    ensures diffMs >= MinuteMs ==> |r| > |AgoWord| + |UnitWord(AgoOf(diffMs))| && r[..|AgoWord|] == AgoWord
    ensures diffMs >= MinuteMs ==> r[|r| - |UnitWord(AgoOf(diffMs))|..] == UnitWord(AgoOf(diffMs))
    ensures diffMs >= MinuteMs ==>
              var count := NatToString(AgoOf(diffMs).n);
              && |r| == |AgoWord| + |count| + 1 + |UnitWord(AgoOf(diffMs))|
              && OccursAt(r, count, |AgoWord|)
              && r[|AgoWord| + |count|] == ' '
  {
    var a := AgoOf(diffMs);
    if a.JustNow? then NowLabel else AgoWord + NatToString(a.n) + " " + UnitWord(a)
  }

  // ---------------------------------------------------------------------------
  // Token claims

  /** A user as a plain object: property name to value, `None` for `undefined`. */
  type UserRecord = map<string, Option<string>>

  /** The claims of a token payload that `getCurrentUser` reads. */
  datatype Claims = Claims(
    sub: Option<string>, userId: Option<string>, email: Option<string>,
    givenName: Option<string>, firstName: Option<string>,
    familyName: Option<string>, lastName: Option<string>,
    role: Option<string>, phoneNumber: Option<string>, phone: Option<string>,
    address: Option<string>)

  /** Position of the first `c` in `s`. */
  function IndexOf(s: string, c: char): (r: Option<nat>)
    ensures r.None? <==> c !in s
    ensures r.Some? ==> r.value < |s| && s[r.value] == c && c !in s[..r.value]
  {
    if |s| == 0 then None
    else if s[0] == c then Some(0)
    else
      var rest := IndexOf(s[1..], c);
      assert s[1..][..0] == [];
      if rest.Some? then
        assert s[..rest.value + 1] == [s[0]] + s[1..][..rest.value];
        Some(rest.value + 1)
      else None
  }

  /**
   `token.split(".")[1]`: the text between the first and the second dot (or the
   end); missing when the token has no dot.
   */
  function PayloadSegment(token: string): (r: Option<string>)
    ensures r.None? <==> '.' !in token
    ensures r.Some? ==> '.' !in r.value
    ensures r.Some? ==> exists i ::
              && 0 <= i < |token| && token[i] == '.' && '.' !in token[..i]
              && OccursAt(token, r.value, i + 1)
              && (i + 1 + |r.value| == |token| || token[i + 1 + |r.value|] == '.')
  {
    match IndexOf(token, '.')
    case None => None
    case Some(i) =>
      var rest := token[i + 1..];
      match IndexOf(rest, '.')
      case None =>
        assert OccursAt(token, rest, i + 1);
        Some(rest)
      case Some(j) =>
        assert OccursAt(token, rest[..j], i + 1);
        Some(rest[..j])
  }

  /**
   `decodeToken`: the payload segment handed to `decode` (base64url decoding
   and JSON parsing, `None` when either fails or the payload is falsy). A token
   without a dot decodes to nothing rather than failing.
   */
  function DecodeToken(token: string, decode: string -> Option<Claims>): (r: Option<Claims>)
    ensures '.' !in token ==> r.None?
    ensures '.' in token ==> r == decode(PayloadSegment(token).value)
  {
    match PayloadSegment(token)
    case None => None
    case Some(segment) => decode(segment)
  }

  const UserFields: set<string> := {"id", "email", "firstName", "lastName", "role", "phone", "address"}

  /** The user object `getCurrentUser` builds from claims. */
  function UserOfClaims(c: Claims): (u: UserRecord)
    ensures u.Keys == UserFields
    ensures u["id"] == (if Truthy(c.sub) then c.sub else c.userId)
    ensures u["firstName"] == (if Truthy(c.givenName) then c.givenName else c.firstName)
    ensures u["lastName"] == (if Truthy(c.familyName) then c.familyName else c.lastName)
    ensures u["phone"] == (if Truthy(c.phoneNumber) then c.phoneNumber else c.phone)
    ensures u["email"] == c.email && u["role"] == c.role && u["address"] == c.address
  {
    map[
      "id" := Or(c.sub, c.userId),
      "email" := c.email,
      "firstName" := Or(c.givenName, c.firstName),
      "lastName" := Or(c.familyName, c.lastName),
      "role" := c.role,
      "phone" := Or(c.phoneNumber, c.phone),
      "address" := c.address
    ]
  }

  /** `getCurrentUser()` given the stored `authToken` slot. */
  function CurrentUser(storedToken: Option<string>, decode: string -> Option<Claims>): (u: Option<UserRecord>)
    ensures !Truthy(storedToken) ==> u.None?
    ensures Truthy(storedToken) && '.' !in storedToken.value ==> u.None?
    ensures u.Some? <==> Truthy(storedToken) && DecodeToken(storedToken.value, decode).Some?
    ensures u.Some? ==> u.value == UserOfClaims(DecodeToken(storedToken.value, decode).value)
  {
    if !Truthy(storedToken) then None
    else match DecodeToken(storedToken.value, decode)
      case None => None
      case Some(c) => Some(UserOfClaims(c))
  }

  /** `initializeToken()` at load: the stored token when it is truthy. */
  function InitialToken(storedToken: Option<string>): (t: Option<string>)
    ensures Truthy(storedToken) ==> t == storedToken
    ensures !Truthy(storedToken) ==> t.None?
  {
    if Truthy(storedToken) then storedToken else None
  }
}
