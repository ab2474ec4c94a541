/**
 * The key-value store holding pending email verification codes, the key
 * scheme `"EMAIL_CODE" + email`, and the per-email lifecycle the exchange is
 * meant to follow: no code, then a pending code after a request, then no code
 * again once a confirmation matches.
 */
module CodeStore {
  import opened Wrappers
  import opened JavaLang

  /** The shared cache: key to stored string value. */
  type Store = map<string, string>

  const CODE_KEY_PREFIX: string := "EMAIL_CODE"

  /** The cache key under which the code for `email` is kept. */
  function Key(email: JString): (k: string)
    ensures CODE_KEY_PREFIX <= k
    ensures k[|CODE_KEY_PREFIX|..] == Text(email)
  {
    Concat(CODE_KEY_PREFIX, email)
  }

  /** Distinct (non-null) emails get distinct keys, so their codes never share an entry. */
  lemma KeyInjective(a: string, b: string)
    ensures Key(Some(a)) == Key(Some(b)) <==> a == b
  {
  }

  /** A `null` email is keyed exactly like the literal email "null". */
  lemma NullEmailSharesKey()
    ensures Key(None) == Key(Some("null"))
  {
  }

  /** The state of one email in the lifecycle. */
  datatype CodeState = NoCode | Pending(code: string)

  /** What the store says about `email`. */
  function View(store: Store, email: JString): (st: CodeState)
    ensures st.Pending? <==> Key(email) in store
    ensures st.Pending? ==> store[Key(email)] == st.code
  {
    if Key(email) in store then Pending(store[Key(email)]) else NoCode
  }

  /**
   * Reference lifecycle for a code request: a request for an available email
   * makes `code` the one pending code, whatever was pending before; a request
   * that is refused changes nothing.
   */
  function RequestSpec(st: CodeState, available: bool, code: string): CodeState
  {
    if available then Pending(code) else st
  }

  /**
   * Reference lifecycle for a confirmation: an exact match consumes the
   * pending code; anything else leaves the state as it was.
   */
  function ConfirmSpec(st: CodeState, submitted: JString): CodeState
  {
    match st
    case NoCode => NoCode
    case Pending(c) => if submitted == Some(c) then NoCode else st
  }
}
