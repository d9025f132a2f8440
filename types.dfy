/** Record shapes of the bookmark client (src/types/link.types.ts and
    src/types/auth.types.ts), the error shape the HTTP layer rejects with,
    and the small wrappers the rest of the model uses. */
module Types {

  datatype Option<T> = None | Some(value: T)

  datatype Result<T, E> = Ok(value: T) | Err(error: E)

  /** A rejected HTTP call: either no response arrived (timeout, network
      failure), or the server answered with a non-2xx status and possibly a
      `message` field in its body. */
  datatype HttpError =
    | NoResponse
    | ErrorResponse(status: int, message: Option<string>)

  /** `error.response?.data?.message`: the server's message, when there was
      a response carrying one. */
  function ServerMessage(error: HttpError): Option<string>
  {
    if error.ErrorResponse? then error.message else None
  }

  /** A bookmark as the server returns it. The description may be missing,
      which the search filter treats as "does not match". */
  datatype Link = Link(
    id: string,
    title: string,
    url: string,
    description: Option<string>,
    category: string,
    createDate: string,
    updateDate: string)

  /** The editable fields submitted on create and update; "" stands for a
      field the form left empty. */
  datatype LinkRequest = LinkRequest(
    title: string,
    url: string,
    description: string,
    category: string)

  datatype User = User(id: string, username: string, email: string, role: string)

  datatype LoginRequest = LoginRequest(usernameOrEmail: string, password: string)

  datatype RegisterRequest = RegisterRequest(username: string, email: string, password: string)

  /** The login/register response; an absent token is represented by "". */
  datatype AuthResponse = AuthResponse(
    token: string,
    tokenType: string,
    id: string,
    username: string,
    email: string,
    role: string)

  /** The identity snapshot both the session store and the auth context take
      out of a response: exactly its id, username, email and role. */
  function UserOf(response: AuthResponse): User
  {
    User(response.id, response.username, response.email, response.role)
  }

  /** A notification raised with antd's `message.success` / `message.error`;
      an error toast may carry no text (`message.error(undefined)`). */
  datatype Toast = SuccessToast(text: string) | ErrorToast(reason: Option<string>)
}
