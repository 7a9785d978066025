/** Values shared by the crates.io client model: the error taxonomy, the
    Result wrapper every request returns, and the few fields of the API's
    records that the client logic looks at. */
module Types {

  datatype Option<T> = None | Some(value: T)

  /** Failures reported by the HTTP library: the request never produced a
      response, the status was unsuccessful, or the body did not decode. */
  datatype HttpError =
    | SendFailure(message: string)
    | Status(code: nat)
    | Decode(message: string)

  /** The client's error type: `Error::Http`, `Error::NotFound`,
      `Error::PermissionDenied` and `Error::Api`. */
  datatype Error =
    | Http(cause: HttpError)
    | NotFound(url: string)
    | PermissionDenied(reason: string)
    | Api(errors: seq<string>)

  datatype Result<T> = Ok(value: T) | Err(error: Error)

  /** One crate of a `/crates` listing page. */
  datatype Crate = Crate(id: string, name: string)

  /** The query of the `/crates` listing; only the page number changes
      while a stream walks the listing. */
  datatype CratesQuery = CratesQuery(page: nat, perPage: nat, search: Option<string>)
}
