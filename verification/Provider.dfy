/** The message provider as the protocol sees it: what a reply is read as. */
module Provider {
  import opened Wrappers

  datatype Status = Sending | Accepted | Delivered | Failed | Unknown

  datatype ProviderResult = ProviderResult(
    status: Status, messageId: Option<string>, groupId: Option<string>, errorCode: Option<string>)

  /** A field of a reply that ought to be a list. */
  datatype Listing<+T> = Absent | NotAList | Items(items: seq<T>)

  datatype FailedItem = FailedItem(to: string, isAlimtalk: bool, statusCode: Option<string>)

  datatype SentItem = SentItem(messageId: Option<string>, statusCode: Option<string>)

  datatype SendReply =
    | NotAttempted
    | Broken
    | HttpError(code: int)
    | Answer(failures: Listing<FailedItem>, messages: Listing<SentItem>, group: Option<string>)

  datatype LookupReply =
    | LookupNotConfigured
    | LookupUnavailable
    | LookupUnrelated
    | Found(statusCode: Option<string>, group: Option<string>)

  predicate IsDigit(c: char) {
    '0' <= c <= '9'
  }

  predicate FourDigits(s: string) {
    |s| == 4 && forall i :: 0 <= i < 4 ==> IsDigit(s[i])
  }

  /** Anything that is not a four digit code counts as no code at all. */
  function ReadCode(value: Option<string>): Option<string> {
    if value.Some? && FourDigits(value.value) then value else None
  }

  function DeliveryStatus(code: Option<string>): Status {
    if code == Some("4000") then Delivered
    else if code == Some("2000") || code == Some("2100") || code == Some("3000") then Accepted
    else if code == Some("3014") || code == Some("3048") then Unknown
    else if code.Some? && FourDigits(code.value) && code.value[0] in {'1', '2', '3'} then Failed
    else Unknown
  }

  function Unclear(errorCode: Option<string>): ProviderResult {
    ProviderResult(Unknown, None, None, errorCode)
  }

  const REJECTED := {400, 401, 403, 404, 413, 422, 429}

  function Digit(n: nat): char
    requires n < 10
  {
    '0' + n as char
  }

  /** The error code of a rejected request, as in HTTP_404. */
  function HttpCode(code: int): string
    requires 100 <= code < 1000
  {
    "HTTP_" + [Digit(code / 100), Digit(code / 10 % 10), Digit(code % 10)]
  }

  function SendOutcome(to: string, reply: SendReply): ProviderResult {
    match reply
    case NotAttempted => Unclear(Some("PROVIDER_DISABLED"))
    case Broken => Unclear(Some("PROVIDER_OUTCOME_UNKNOWN"))
    case HttpError(code) =>
      if code in REJECTED then Unclear(Some(HttpCode(code))).(status := Failed)
      else Unclear(Some("PROVIDER_RESPONSE_UNKNOWN"))
    case Answer(failures, messages, group) =>
      if failures.NotAList? then
        Unclear(Some("PROVIDER_RESPONSE_UNKNOWN"))
      else if failures.Items? && failures.items != [] then
        if && |failures.items| == 1
           && (messages.Absent? || messages == Items([]))
           && failures.items[0].to == to && failures.items[0].isAlimtalk
           && DeliveryStatus(ReadCode(failures.items[0].statusCode)) == Failed
        then Unclear(ReadCode(failures.items[0].statusCode)).(status := Failed)
        else Unclear(Some("PROVIDER_RESPONSE_UNKNOWN"))
      else if messages.Items? && |messages.items| == 1 && messages.items[0].messageId.Some? then
        var code := ReadCode(messages.items[0].statusCode);
        ProviderResult(DeliveryStatus(code), messages.items[0].messageId, group,
                       if DeliveryStatus(code) == Failed then code else None)
      else
        Unclear(Some("PROVIDER_RESPONSE_UNKNOWN")).(groupId := group)
  }

  function LookupOutcome(messageId: string, reply: LookupReply): ProviderResult {
    match reply
    case LookupNotConfigured => Unclear(Some("PROVIDER_NOT_CONFIGURED"))
    case LookupUnavailable => Unclear(Some("PROVIDER_LOOKUP_UNAVAILABLE"))
    case LookupUnrelated => Unclear(Some("PROVIDER_LOOKUP_UNKNOWN"))
    case Found(statusCode, group) =>
      var code := ReadCode(statusCode);
      var status := DeliveryStatus(code);
      ProviderResult(status, Some(messageId), group,
                     if status == Failed then code
                     else if status == Unknown then Some("PROVIDER_STATUS_UNKNOWN") else None)
  }

  /** A send is never left in Sending, and Accepted or Delivered always comes
      with the id that later lookups need. */
  lemma SendOutcomeShape(to: string, reply: SendReply)
    ensures var r := SendOutcome(to, reply);
            && r.status != Sending
            && (r.status == Accepted || r.status == Delivered ==> r.messageId.Some?)
            && (r.status == Failed ==> r.errorCode.Some?)
  {
    if reply.Answer? && reply.messages.Items? && |reply.messages.items| == 1 {
      var code := ReadCode(reply.messages.items[0].statusCode);
      assert DeliveryStatus(code) == Failed ==> code.Some?;
    }
  }

  // ---------------------------------------------------------------- what the codes mean

  predicate AcceptedCode(code: string) {
    code in {"2000", "2100", "3000"}
  }

  /** The codes with which the provider says that it did not deliver. */
  predicate RejectedCode(code: string) {
    && |code| == 4 && code[0] in "123" && (forall i :: 0 <= i < 4 ==> '0' <= code[i] <= '9')
    && code !in {"2000", "2100", "3000", "3014", "3048"}
  }

  /** What a code, if there is one, says of a message. */
  predicate Says(code: Option<string>, status: Status) {
    match status
    case Delivered => code == Some("4000")
    case Accepted => code.Some? && AcceptedCode(code.value)
    case Failed => code.Some? && RejectedCode(code.value)
    case Unknown => code.None? || (code.value != "4000" && !AcceptedCode(code.value) && !RejectedCode(code.value))
    case Sending => false
  }

  lemma CodesMean(code: Option<string>)
    ensures forall status :: DeliveryStatus(ReadCode(code)) == status <==> Says(code, status)
    ensures code.Some? && RejectedCode(code.value) ==> ReadCode(code) == code
  {
  }

  /** The one message that a reply accepts, with the code it gives. */
  predicate AnswersWith(reply: SendReply, id: string, code: Option<string>) {
    && reply.Answer? && (reply.failures == Absent || reply.failures == Items([]))
    && reply.messages == Items([SentItem(Some(id), code)])
  }

  /** The reply rejects the one message, for this recipient and for this reason. */
  predicate Rejects(to: string, reply: SendReply, code: string) {
    && reply.Answer? && reply.failures == Items([FailedItem(to, true, Some(code))])
    && (reply.messages == Absent || reply.messages == Items([])) && RejectedCode(code)
  }

  /** What sending comes to, in terms of the reply alone: only an explicit rejection, as an
      HTTP code or as a code of the provider, counts as Failed; a timeout, a transport error
      or an unreadable reply stays Unknown, so it is never sent again. */
  lemma AmbiguityIsNeverFailure(to: string, reply: SendReply)
    ensures var r := SendOutcome(to, reply);
            && (r.status == Failed <==>
                  || (reply.HttpError? && reply.code in {400, 401, 403, 404, 413, 422, 429})
                  || (exists code :: Rejects(to, reply, code))
                  || (exists id, code :: AnswersWith(reply, id, Some(code)) && RejectedCode(code)))
            && (r.status == Delivered <==> exists id :: AnswersWith(reply, id, Some("4000")))
            && (r.status == Accepted <==> exists id, code :: AnswersWith(reply, id, Some(code)) && AcceptedCode(code))
            && (r.status == Failed || r.status == Delivered || r.status == Accepted || r.status == Unknown)
  {
    if reply.Answer? && reply.failures.Items? && |reply.failures.items| == 1 {
      var f := reply.failures.items[0];
      CodesMean(f.statusCode);
      assert reply.failures.items == [f];
      if Says(f.statusCode, Failed) && f.to == to && f.isAlimtalk {
        assert Rejects(to, reply, f.statusCode.value)
               <==> reply.messages == Absent || reply.messages == Items([]);
      }
    }
    if reply.Answer? && reply.messages.Items? && |reply.messages.items| == 1 {
      var m := reply.messages.items[0];
      CodesMean(m.statusCode);
      assert reply.messages.items == [m];
      if m.messageId.Some? && m.statusCode.Some? {
        assert AnswersWith(reply, m.messageId.value, m.statusCode)
               <==> reply.failures == Absent || reply.failures == Items([]);
      }
    }
  }

  /** The ids and the reason that a reply leaves on the row. */
  lemma SendOutcomeKeeps(to: string, reply: SendReply)
    ensures var r := SendOutcome(to, reply);
            && (r.messageId.Some? <==> exists id, code :: AnswersWith(reply, id, code))
            && (forall id, code :: AnswersWith(reply, id, code) ==>
                  && r.messageId == Some(id) && r.groupId == reply.group
                  && r.errorCode == if Says(code, Failed) then code else None)
            && (forall code :: Rejects(to, reply, code) ==> r.errorCode == Some(code))
            && (reply == NotAttempted ==> r.errorCode == Some("PROVIDER_DISABLED"))
            && (reply == Broken ==> r.errorCode == Some("PROVIDER_OUTCOME_UNKNOWN"))
  {
    if reply.Answer? && reply.failures.Items? && |reply.failures.items| == 1 {
      CodesMean(reply.failures.items[0].statusCode);
    }
    if reply.Answer? && reply.messages.Items? && |reply.messages.items| == 1 {
      var m := reply.messages.items[0];
      CodesMean(m.statusCode);
      assert reply.messages.items == [m];
      if m.messageId.Some? {
        assert AnswersWith(reply, m.messageId.value, m.statusCode)
               <==> reply.failures == Absent || reply.failures == Items([]);
      }
    }
  }

  /** What answers nothing clear keeps no id and is told as such. */
  lemma UnclearReplyKeeps(to: string, reply: SendReply)
    ensures var r := SendOutcome(to, reply);
            && (reply.HttpError? ==>
                  && r.messageId.None? && r.groupId.None?
                  && r.errorCode == Some(if reply.code in REJECTED then HttpCode(reply.code)
                                         else "PROVIDER_RESPONSE_UNKNOWN"))
            && (reply.Answer? && r.messageId.None? && r.status == Unknown ==>
                  && r.errorCode == Some("PROVIDER_RESPONSE_UNKNOWN")
                  && r.groupId == if reply.failures in {Absent, Items([])} then reply.group else None)
    ensures HttpCode(400) == "HTTP_400" && HttpCode(401) == "HTTP_401" && HttpCode(403) == "HTTP_403"
    ensures HttpCode(404) == "HTTP_404" && HttpCode(413) == "HTTP_413" && HttpCode(422) == "HTTP_422"
    ensures HttpCode(429) == "HTTP_429"
  {
  }

  /** A look-up reports exactly what the code it found says, and nothing without one. */
  lemma LookupOutcomeMeans(messageId: string, reply: LookupReply)
    ensures var r := LookupOutcome(messageId, reply);
            if reply.Found? then
              && Says(reply.statusCode, r.status) && r.messageId == Some(messageId) && r.groupId == reply.group
              && r.errorCode == (if r.status == Failed then reply.statusCode
                                 else if r.status == Unknown then Some("PROVIDER_STATUS_UNKNOWN") else None)
            else
              && r.status == Unknown && r.messageId.None? && r.groupId.None?
              && r.errorCode == Some(if reply.LookupNotConfigured? then "PROVIDER_NOT_CONFIGURED"
                                     else if reply.LookupUnavailable? then "PROVIDER_LOOKUP_UNAVAILABLE"
                                     else "PROVIDER_LOOKUP_UNKNOWN")
  {
    if reply.Found? {
      CodesMean(reply.statusCode);
    }
  }
}
