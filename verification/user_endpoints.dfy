/**
 * The remaining user controller endpoints that carry logic of their own: the
 * signup field list, the mapping from the service's affected-row counts to
 * HTTP statuses, and the defaults of the user listing.
 */
module UserEndpoints {
  import opened Wrappers
  import opened JavaLang
  import opened Http
  import opened PageRequest

  /** The text the signup form's field list is split from. */
  const SIGNUP_FORM_TEXT: string := "userNickname userName userPhone userEmail userPassword"

  /** The signup form's fields, in order. */
  const SIGNUP_FIELDS: seq<string> := ["userNickname", "userName", "userPhone", "userEmail", "userPassword"]

  /** The form text is the five names with one space between neighbours. */
  lemma SignupTextIsSpaced()
    ensures SIGNUP_FORM_TEXT == "userNickname" + " " + "userName" + " " + "userPhone" + " " + "userEmail" + " " + "userPassword"
  {
  }

  lemma SignupFieldsJoin()
    ensures Join(SIGNUP_FIELDS, ' ') == SIGNUP_FORM_TEXT
  {
    JoinFive(SIGNUP_FIELDS, ' ');
    SignupTextIsSpaced();
  }

  lemma SignupFieldsWellFormed()
    ensures forall i :: 0 <= i < |SIGNUP_FIELDS| ==> ' ' !in SIGNUP_FIELDS[i] && SIGNUP_FIELDS[i] != ""
  {
  }

  /** Splitting the form text on spaces yields exactly the five field names. */
  lemma SignupTextSplitsIntoFields()
    ensures Split(SIGNUP_FORM_TEXT, ' ') == SIGNUP_FIELDS
  {
    SignupFieldsJoin();
    SignupFieldsWellFormed();
    SplitOfJoin(SIGNUP_FIELDS, ' ');
  }

  /** The loop that copies the split array into a fresh list, element by element. */
  method CopyToList(userArray: seq<string>) returns (userList: seq<string>)
    ensures userList == userArray
  {
    userList := [];
    for i := 0 to |userArray|
      invariant userList == userArray[..i]
    {
      userList := userList + [userArray[i]];
    }
  }

  /** GET /users/signup: the form text split on spaces, copied into a list. */
  method GetSignup() returns (r: Response<seq<string>>)
    ensures r.status == OK
    ensures r.body == ["userNickname", "userName", "userPhone", "userEmail", "userPassword"]
  {
    var userArray := Split(SIGNUP_FORM_TEXT, ' ');
    SignupTextSplitsIntoFields();
    var userList := CopyToList(userArray);
    return Response(OK, userList);
  }

  const UPDATED_MSG: string := "User updated successfully."
  const DELETED_MSG: string := "User deleted successfully."
  const USER_NOT_FOUND_MSG: string := "User not found."

  /** The profile field a PATCH endpoint updates. */
  datatype UserField = Name | Nickname | Phone

  /**
   * PATCH /users/name, /users/nickname and /users/phone: `count` is the number
   * of rows the service reports as updated. `field` only names which of the
   * three endpoints is meant; the answer does not depend on it.
   */
  function PatchUser(field: UserField, count: Int32): (r: Response<string>)
    ensures IsSuccess(r.status) <==> count > 0
    ensures IsSuccess(r.status) ==> r == Response(OK, UPDATED_MSG)
    ensures !IsSuccess(r.status) ==> r == Response(NOT_FOUND, USER_NOT_FOUND_MSG)
  {
    if count > 0 then Response(OK, UPDATED_MSG) else Response(NOT_FOUND, USER_NOT_FOUND_MSG)
  }

  /** DELETE /users/delete: `count` is the number of rows the service reports as deleted. */
  function DeleteUser(count: Int32): (r: Response<string>)
    ensures IsSuccess(r.status) <==> count > 0
    ensures IsSuccess(r.status) ==> r == Response(NO_CONTENT, DELETED_MSG)
    ensures !IsSuccess(r.status) ==> r == Response(NOT_FOUND, USER_NOT_FOUND_MSG)
  {
    if count > 0 then Response(NO_CONTENT, DELETED_MSG) else Response(NOT_FOUND, USER_NOT_FOUND_MSG)
  }

  /** The three field updates answer alike, and agree with deletion on when they succeed. */
  lemma CountStatusesAgree(f: UserField, g: UserField, count: Int32)
    ensures PatchUser(f, count) == PatchUser(g, count)
    ensures IsSuccess(PatchUser(f, count).status) == IsSuccess(DeleteUser(count).status)
  {
  }

  /**
   * Query parameters of GET /users/list as received: `None` is a parameter
   * that is missing or empty.
   */
  datatype ListParams = ListParams(page: Option<Int32>, perPage: Option<Int32>, perPagination: Option<Int32>, searchType: Option<string>, keyword: Option<string>)

  const DEFAULT_PAGE: Int32 := 1
  const DEFAULT_PER_PAGE: Int32 := 10
  const DEFAULT_PER_PAGINATION: Int32 := 5
  const DEFAULT_TYPE: string := "n"
  const DEFAULT_KEYWORD: string := "@"

  /** A text parameter, or its default when it is missing or empty. */
  function TextParam(p: Option<string>, default: string): (r: string)
    ensures p.Some? && p.value != "" ==> r == p.value
    ensures p.None? || p.value == "" ==> r == default
  {
    if p.Some? && p.value != "" then p.value else default
  }

  /** The paging request GET /users/list builds and hands to the user service. */
  function UserListRequest(params: ListParams): (dto: PageRequestDto)
    ensures dto.page == params.page.GetOr(DEFAULT_PAGE)
    ensures dto.perPage == params.perPage.GetOr(DEFAULT_PER_PAGE)
    ensures dto.perPagination == params.perPagination.GetOr(DEFAULT_PER_PAGINATION)
    ensures dto.searchType.Some? && dto.keyword.Some?
    ensures dto.searchType.value == TextParam(params.searchType, DEFAULT_TYPE)
    ensures dto.keyword.value == TextParam(params.keyword, DEFAULT_KEYWORD)
  {
    PageRequestDto(
      params.page.GetOr(DEFAULT_PAGE),
      params.perPage.GetOr(DEFAULT_PER_PAGE),
      params.perPagination.GetOr(DEFAULT_PER_PAGINATION),
      Some(TextParam(params.searchType, DEFAULT_TYPE)),
      Some(TextParam(params.keyword, DEFAULT_KEYWORD)))
  }

  /** With no parameters the listing asks for index 0 with 10 rows, and searches type "n" for "@". */
  lemma DefaultListingTargetsFirstPage<S>(sort: S)
    ensures var dto := UserListRequest(ListParams(None, None, None, None, None));
      && GetPageable(dto, sort) == Pageable(0, 10, sort)
      && dto.perPagination == 5
      && dto.searchType == Some("n")
      && dto.keyword == Some("@")
  {
  }
}
