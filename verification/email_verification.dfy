/**
 * The two email verification endpoints of the user controller as pure
 * transitions `(store, request) -> (response, store')`. Whether an email is
 * still available (not registered) and the code the mail service produced
 * are inputs: both come from collaborators outside this model.
 */
module EmailVerification {
  import opened Wrappers
  import opened JavaLang
  import opened Http
  import opened CodeStore

  /** Body of a code request. */
  datatype EmailDto = EmailDto(userEmail: JString)

  /** Body of a confirmation: the email and the code the user typed. */
  datatype EmailConfirmDto = EmailConfirmDto(userEmail: JString, code: JString)

  /** The response together with the store after the call. */
  datatype Outcome = Outcome(response: Response<string>, store: Store)

  const DUPLICATE_EMAIL_MSG: string := "중복된 이메일입니다."
  const BAD_FORMAT_MSG: string := "잘못된 형식입니다."
  const WRONG_CODE_MSG: string := "인증번호가 잘못되었습니다"
  const CONFIRMED_MSG: string := "ok"

  /**
   * POST /users/mailAuthentication. `payload` is `None` for a null body;
   * `isAvailable` is the directory's duplicate-email check (true when no user
   * has the email); `code` is what the mail service generated and sent.
   */
  function MailAuthentication(store: Store, payload: Option<EmailDto>, isAvailable: EmailDto -> bool, code: string): (r: Outcome)
    ensures payload.None? ==> r.response == Response(NOT_MODIFIED, BAD_FORMAT_MSG) && r.store == store
    ensures payload.Some? && !isAvailable(payload.value) ==>
      r.response == Response(CONFLICT, DUPLICATE_EMAIL_MSG) && r.store == store
    ensures payload.Some? && isAvailable(payload.value) ==>
      var k := Key(payload.value.userEmail);
      && r.response == Response(OK, code)
      && r.store.Keys == store.Keys + {k}
      && r.store[k] == code
      && (forall k' :: k' in store && k' != k ==> r.store[k'] == store[k'])
  {
    match payload
    case None => Outcome(Response(NOT_MODIFIED, BAD_FORMAT_MSG), store)
    case Some(dto) =>
      if isAvailable(dto) then
        Outcome(Response(OK, code), store[Key(dto.userEmail) := code])
      else
        Outcome(Response(CONFLICT, DUPLICATE_EMAIL_MSG), store)
  }

  /** POST /users/mailConfirm. */
  function MailConfirm(store: Store, dto: EmailConfirmDto): (r: Outcome)
    ensures Key(dto.userEmail) !in store ==>
      r.response == Response(NOT_MODIFIED, BAD_FORMAT_MSG) && r.store == store
    ensures Key(dto.userEmail) in store && Equals(store[Key(dto.userEmail)], dto.code) ==>
      var k := Key(dto.userEmail);
      && r.response == Response(OK, CONFIRMED_MSG)
      && r.store.Keys == store.Keys - {k}
      && (forall k' :: k' in r.store ==> r.store[k'] == store[k'])
    ensures Key(dto.userEmail) in store && !Equals(store[Key(dto.userEmail)], dto.code) ==>
      r.response == Response(CONFLICT, WRONG_CODE_MSG) && r.store == store
  {
    var k := Key(dto.userEmail);
    if k in store then
      var storedCode := store[k];
      if Equals(storedCode, dto.code) then
        Outcome(Response(OK, CONFIRMED_MSG), store - {k})
      else
        Outcome(Response(CONFLICT, WRONG_CODE_MSG), store)
    else
      Outcome(Response(NOT_MODIFIED, BAD_FORMAT_MSG), store)
  }

  /** A code request moves the requested email through the reference lifecycle. */
  lemma MailAuthenticationFollowsLifecycle(store: Store, dto: EmailDto, isAvailable: EmailDto -> bool, code: string)
    ensures View(MailAuthentication(store, Some(dto), isAvailable, code).store, dto.userEmail)
         == RequestSpec(View(store, dto.userEmail), isAvailable(dto), code)
  {
  }

  /** A confirmation moves the email through the reference lifecycle. */
  lemma MailConfirmFollowsLifecycle(store: Store, dto: EmailConfirmDto)
    ensures View(MailConfirm(store, dto).store, dto.userEmail) == ConfirmSpec(View(store, dto.userEmail), dto.code)
  {
  }

  /** The confirmation is answered 200 exactly when the submitted code equals the pending one. */
  lemma MailConfirmAcceptsExactlyPendingCode(store: Store, dto: EmailConfirmDto)
    ensures MailConfirm(store, dto).response.status == OK
        <==> View(store, dto.userEmail).Pending? && dto.code == Some(View(store, dto.userEmail).code)
  {
  }

  /** A duplicate email is refused with 409 whatever codes are pending. */
  lemma DuplicateEmailAlwaysConflicts(store: Store, dto: EmailDto, isAvailable: EmailDto -> bool, code: string)
    requires !isAvailable(dto)
    ensures MailAuthentication(store, Some(dto), isAvailable, code) == Outcome(Response(CONFLICT, DUPLICATE_EMAIL_MSG), store)
  {
  }
}
