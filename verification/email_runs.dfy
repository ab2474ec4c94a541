/**
 * Sequences of calls to the two email verification endpoints against one
 * shared store: replay rejection, retries after a mismatch, overwrite on
 * re-request, isolation between emails, and a bound on how often codes are
 * accepted.
 */
module EmailRuns {
  import opened Wrappers
  import opened JavaLang
  import opened Http
  import opened CodeStore
  import opened EmailVerification

  /** One request to either endpoint, with the collaborators' answers for that moment. */
  datatype Call =
    | Authenticate(payload: Option<EmailDto>, isAvailable: EmailDto -> bool, code: string)
    | Confirm(dto: EmailConfirmDto)

  /** The store key a call reads or writes, if any (a null payload touches nothing). */
  function CallKey(call: Call): Option<string>
  {
    match call
    case Authenticate(p, _, _) => if p.Some? then Some(Key(p.value.userEmail)) else None
    case Confirm(d) => Some(Key(d.userEmail))
  }

  /** The email a call names, if it has a body (`Some(None)` is a null email). */
  function CallEmail(call: Call): Option<JString>
  {
    match call
    case Authenticate(p, _, _) => if p.Some? then Some(p.value.userEmail) else None
    case Confirm(d) => Some(d.userEmail)
  }

  function Step(store: Store, call: Call): Outcome
  {
    match call
    case Authenticate(p, avail, code) => MailAuthentication(store, p, avail, code)
    case Confirm(d) => MailConfirm(store, d)
  }

  /** The responses to `calls`, answered in order, and the final store. */
  datatype Trace = Trace(responses: seq<Response<string>>, store: Store)

  function Run(store: Store, calls: seq<Call>): (t: Trace)
    ensures |t.responses| == |calls|
    decreases |calls|
  {
    if |calls| == 0 then Trace([], store)
    else
      var o := Step(store, calls[0]);
      var rest := Run(o.store, calls[1..]);
      Trace([o.response] + rest.responses, rest.store)
  }

  /** Running one call and then the rest. */
  lemma RunCons(store: Store, call: Call, rest: seq<Call>)
    ensures var o := Step(store, call);
      Run(store, [call] + rest) == Trace([o.response] + Run(o.store, rest).responses, Run(o.store, rest).store)
  {
  }

  /** The entry of `store` at `k`, present or not. */
  function Lookup(store: Store, k: string): Option<string>
  {
    if k in store then Some(store[k]) else None
  }

  /** A single call leaves every key other than its own as it was. */
  lemma StepIsolation(store: Store, call: Call, k: string)
    requires CallKey(call) != Some(k)
    ensures Lookup(Step(store, call).store, k) == Lookup(store, k)
  {
  }

  /** A single call's response and its effect on its own key depend only on that key's entry. */
  lemma StepLocality(s1: Store, s2: Store, call: Call)
    requires CallKey(call).Some?
    requires Lookup(s1, CallKey(call).value) == Lookup(s2, CallKey(call).value)
    ensures Step(s1, call).response == Step(s2, call).response
    ensures Lookup(Step(s1, call).store, CallKey(call).value) == Lookup(Step(s2, call).store, CallKey(call).value)
  {
  }

  /** A whole run of calls for other emails leaves the entry at `k` untouched. */
  lemma {:induction false} RunIsolation(store: Store, calls: seq<Call>, k: string)
    requires forall i :: 0 <= i < |calls| ==> CallKey(calls[i]) != Some(k)
    ensures Lookup(Run(store, calls).store, k) == Lookup(store, k)
    decreases |calls|
  {
    if |calls| > 0 {
      StepIsolation(store, calls[0], k);
      RunIsolation(Step(store, calls[0]).store, calls[1..], k);
    }
  }

  /**
   * Calls for other non-null emails never change a non-null email's state:
   * distinct emails have distinct keys.
   */
  lemma DistinctEmailsIsolated(store: Store, calls: seq<Call>, email: string)
    requires forall i :: 0 <= i < |calls| ==> CallEmail(calls[i]).Some? ==>
      CallEmail(calls[i]).value.Some? && CallEmail(calls[i]).value != Some(email)
    ensures View(Run(store, calls).store, Some(email)) == View(store, Some(email))
  {
    var k := Key(Some(email));
    forall i | 0 <= i < |calls|
      ensures CallKey(calls[i]) != Some(k)
    {
      if CallEmail(calls[i]).Some? {
        KeyInjective(CallEmail(calls[i]).value.value, email);
      }
    }
    RunIsolation(store, calls, k);
  }

  /**
   * A run of calls that all concern key `k` answers the same, and leaves the
   * same entry at `k`, from any two stores that agree at `k`: an email's
   * exchange never depends on another email's codes.
   */
  lemma {:induction false} RunLocality(s1: Store, s2: Store, calls: seq<Call>, k: string)
    requires forall i :: 0 <= i < |calls| ==> CallKey(calls[i]) == Some(k)
    requires Lookup(s1, k) == Lookup(s2, k)
    ensures Run(s1, calls).responses == Run(s2, calls).responses
    ensures Lookup(Run(s1, calls).store, k) == Lookup(Run(s2, calls).store, k)
    decreases |calls|
  {
    if |calls| > 0 {
      StepLocality(s1, s2, calls[0]);
      RunLocality(Step(s1, calls[0]).store, Step(s2, calls[0]).store, calls[1..], k);
    }
  }

  /** Number of 200 answers to confirmations on key `k` during `Run(store, calls)`. */
  function Accepted(store: Store, calls: seq<Call>, k: string): nat
    decreases |calls|
  {
    if |calls| == 0 then 0
    else
      var o := Step(store, calls[0]);
      var hit := calls[0].Confirm? && CallKey(calls[0]) == Some(k) && o.response.status == OK;
      (if hit then 1 else 0) + Accepted(o.store, calls[1..], k)
  }

  /** Number of codes issued (200 answers to requests) on key `k` during `Run(store, calls)`. */
  function Issued(store: Store, calls: seq<Call>, k: string): nat
    decreases |calls|
  {
    if |calls| == 0 then 0
    else
      var o := Step(store, calls[0]);
      var hit := calls[0].Authenticate? && CallKey(calls[0]) == Some(k) && o.response.status == OK;
      (if hit then 1 else 0) + Issued(o.store, calls[1..], k)
  }

  /**
   * Single use: over any run, confirmations accepted for a key, plus a code
   * still pending at the end, never exceed the codes issued for it plus a code
   * already pending at the start.
   */
  lemma {:induction false} SingleUse(store: Store, calls: seq<Call>, k: string)
    ensures Accepted(store, calls, k) + (if k in Run(store, calls).store then 1 else 0)
         <= Issued(store, calls, k) + (if k in store then 1 else 0)
    decreases |calls|
  {
    if |calls| > 0 {
      var o := Step(store, calls[0]);
      SingleUse(o.store, calls[1..], k);
      if CallKey(calls[0]) != Some(k) {
        StepIsolation(store, calls[0], k);
      }
    }
  }

  /**
   * Request, wrong code, right code, right code again: 200 with the code,
   * 409, 200 "ok", then 304 because the code was consumed.
   */
  lemma IssueRetryConfirmReplay(store: Store, email: JString, isAvailable: EmailDto -> bool, code: string, wrong: JString)
    requires isAvailable(EmailDto(email))
    requires wrong != Some(code)
    ensures var t := Run(store, [
        Authenticate(Some(EmailDto(email)), isAvailable, code),
        Confirm(EmailConfirmDto(email, wrong)),
        Confirm(EmailConfirmDto(email, Some(code))),
        Confirm(EmailConfirmDto(email, Some(code)))]);
      && t.responses == [
        Response(OK, code),
        Response(CONFLICT, WRONG_CODE_MSG),
        Response(OK, CONFIRMED_MSG),
        Response(NOT_MODIFIED, BAD_FORMAT_MSG)]
      && View(t.store, email) == NoCode
  {
    var k := Key(email);
    var request := Authenticate(Some(EmailDto(email)), isAvailable, code);
    var miss := Confirm(EmailConfirmDto(email, wrong));
    var hit := Confirm(EmailConfirmDto(email, Some(code)));
    var s1 := store[k := code];
    var s2 := s1 - {k};
    RunCons(s2, hit, []);
    RunCons(s2, hit, [hit]);
    RunCons(s1, miss, [hit, hit]);
    RunCons(store, request, [miss, hit, hit]);
  }

  /** Re-requesting overwrites: only the latest code for the email is accepted. */
  lemma LatestCodeWins(store: Store, email: JString, isAvailable: EmailDto -> bool, first: string, second: string)
    requires isAvailable(EmailDto(email))
    requires first != second
    ensures var t := Run(store, [
        Authenticate(Some(EmailDto(email)), isAvailable, first),
        Authenticate(Some(EmailDto(email)), isAvailable, second),
        Confirm(EmailConfirmDto(email, Some(first))),
        Confirm(EmailConfirmDto(email, Some(second)))]);
      t.responses == [
        Response(OK, first),
        Response(OK, second),
        Response(CONFLICT, WRONG_CODE_MSG),
        Response(OK, CONFIRMED_MSG)]
  {
    var k := Key(email);
    var one := Authenticate(Some(EmailDto(email)), isAvailable, first);
    var two := Authenticate(Some(EmailDto(email)), isAvailable, second);
    var stale := Confirm(EmailConfirmDto(email, Some(first)));
    var latest := Confirm(EmailConfirmDto(email, Some(second)));
    var s1 := store[k := first];
    var s2 := s1[k := second];
    RunCons(s2, latest, []);
    RunCons(s2, stale, [latest]);
    RunCons(s1, two, [stale, latest]);
    RunCons(store, one, [two, stale, latest]);
  }

  /** Confirming without any pending code is answered 304 and changes nothing. */
  lemma ConfirmWithoutPendingCode(store: Store, dto: EmailConfirmDto)
    requires View(store, dto.userEmail) == NoCode
    ensures Run(store, [Confirm(dto)]) == Trace([Response(NOT_MODIFIED, BAD_FORMAT_MSG)], store)
  {
  }

  /** The worked example: codes "123456" issued, "000000" refused, "123456" accepted once. */
  lemma WorkedExample(isAvailable: EmailDto -> bool)
    requires isAvailable(EmailDto(Some("a@x.com")))
    ensures Run(map[], [
        Authenticate(Some(EmailDto(Some("a@x.com"))), isAvailable, "123456"),
        Confirm(EmailConfirmDto(Some("a@x.com"), Some("000000"))),
        Confirm(EmailConfirmDto(Some("a@x.com"), Some("123456"))),
        Confirm(EmailConfirmDto(Some("a@x.com"), Some("123456")))]).responses
      == [Response(OK, "123456"), Response(CONFLICT, WRONG_CODE_MSG), Response(OK, CONFIRMED_MSG), Response(NOT_MODIFIED, BAD_FORMAT_MSG)]
  {
    IssueRetryConfirmReplay(map[], Some("a@x.com"), isAvailable, "123456", Some("000000"));
  }
}
