/**
 How `request` normalises what the network gives it: which message a failed
 request throws, when the connection-failure message appears, and what a
 successful request returns.
 */
module ApiProperties {
  import opened JsValues
  import opened Text
  import opened Api

  lemma Render500()
    ensures IntToString(500) == "500"
  {
    assert NatToString(5) == "5";
    assert NatToString(50) == "5" + "0";
  }

  lemma Render404()
    ensures IntToString(404) == "404"
  {
    assert NatToString(4) == "4";
    assert NatToString(40) == "4" + "0";
  }

  lemma Fallback500()
    ensures StatusFallback(500) == "خطأ 500: خطأ في الخادم"
  {
    Render500();
    assert StatusText(500) == "خطأ في الخادم";
  }

  /** An empty message has no translation. */
  lemma TranslateEmpty()
    ensures Translate("") == ""
  {
    assert forall k :: 0 <= k < |TranslationKeys| ==> !EntryMatches("", k);
  }

  /** A 500 response with an empty body throws the status phrase for 500. */
  lemma EmptyBody500(contentType: Option<string>, syntaxError: string)
    ensures Request(Responded(Response(false, 500, contentType, Readable("", NotJson(syntaxError)))))
            == Thrown("خطأ 500: خطأ في الخادم")
  {
    Fallback500();
    TranslateEmpty();
  }

  /** A 404 response whose body cannot be read throws the status phrase for 404. */
  lemma UnreadableBody404(contentType: Option<string>, readError: string)
    ensures Request(Responded(Response(false, 404, contentType, Unreadable(readError))))
            == Thrown("خطأ 404: غير موجود")
  {
    Render404();
  }

  /**
   A failed request never throws an empty message, unless its body is JSON
   whose text is empty (which `JSON.parse` never produces).
   */
  lemma FailureMessageNonEmpty(r: Response)
    requires !r.ok
    requires r.body.Readable? && r.body.parse.Parsed? && r.body.parse.json.JsonValue? ==> r.body.text != ""
    ensures Request(Responded(r)).Thrown?
    ensures Request(Responded(r)).message != ""
  {
    match r.body
    case Unreadable(_) =>
    case Readable(text, Parsed(JsonValue(code, message, error))) =>
      var chosen := Or(Or(Or(code, message), error), Some(text));
      assert Truthy(chosen);
    case Readable(text, _) =>
  }

  /**
   On a failed response with a JSON body, the message is the translation of the
   first truthy of `[0].code`, `.message`, `.error` and the raw text.
   */
  lemma JsonFailureMessage(status: int, contentType: Option<string>, text: string,
                           code: Option<string>, message: Option<string>, error: Option<string>)
    requires text != ""
    ensures var chosen :=
              if Truthy(code) then code.value
              else if Truthy(message) then message.value
              else if Truthy(error) then error.value
              else text;
            var thrown := Translate(chosen);
            Request(Responded(Response(false, status, contentType, Readable(text, Parsed(JsonValue(code, message, error))))))
            == Thrown(if thrown == FailedToFetch then ConnectionFailedMessage else thrown)
  {
  }

  /** JSON `null` makes the property access throw, so the raw text is used as for a non-JSON body. */
  lemma NullJsonTreatedAsText(status: int, contentType: Option<string>, text: string, syntaxError: string)
    ensures Request(Responded(Response(false, status, contentType, Readable(text, Parsed(JsonNull)))))
            == Request(Responded(Response(false, status, contentType, Readable(text, NotJson(syntaxError)))))
  {
  }

  /** The backend code "DuplicateUserName" is shown in Arabic wherever the response carries it. */
  lemma DuplicateUserNameNormalised(status: int, contentType: Option<string>, text: string, other: Option<string>)
    requires text != ""
    ensures Request(Responded(Response(false, status, contentType,
              Readable(text, Parsed(JsonValue(Some("DuplicateUserName"), other, other))))))
            == Thrown("البريد الإلكتروني مستخدم من قبل")
    ensures Request(Responded(Response(false, status, contentType,
              Readable(text, Parsed(JsonValue(None, Some("DuplicateUserName"), other))))))
            == Thrown("البريد الإلكتروني مستخدم من قبل")
    ensures Request(Responded(Response(false, status, contentType,
              Readable("DuplicateUserName", NotJson(text)))))
            == Thrown("البريد الإلكتروني مستخدم من قبل")
  {
    TranslateDuplicateUserName();
  }

  /** Only a rejection with exactly "Failed to fetch" becomes the connection-failure message. */
  lemma NetworkRejection(reason: string)
    ensures reason == FailedToFetch ==> Request(Rejected(reason)) == Thrown(ConnectionFailedMessage)
    ensures reason != FailedToFetch ==> Request(Rejected(reason)) == Thrown(reason)
  {
  }

  /**
   A failed response whose own text is "Failed to fetch" is reported as a
   connection failure too: the same `catch` sees both kinds of error.
   */
  lemma ServerTextFailedToFetch(status: int, contentType: Option<string>, syntaxError: string)
    ensures Request(Responded(Response(false, status, contentType, Readable(FailedToFetch, NotJson(syntaxError)))))
            == Thrown(ConnectionFailedMessage)
  {
    TranslateFailedToFetch();
  }

  /** A 2xx JSON response returns the parsed body; any other content type returns `{ message: text }`. */
  lemma SuccessfulBodies(status: int, contentType: Option<string>, text: string, parse: Parse)
    ensures Truthy(contentType) && Contains(contentType.value, "application/json") && parse.Parsed?
            ==> Request(Responded(Response(true, status, contentType, Readable(text, parse))))
                == Returned(JsonPayload(parse.json))
    ensures !(Truthy(contentType) && Contains(contentType.value, "application/json"))
            ==> Request(Responded(Response(true, status, contentType, Readable(text, parse))))
                == Returned(TextPayload(text))
  {
  }
}
