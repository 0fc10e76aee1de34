/**
 * The abstract result of one HTTP request, standing in for the HTTP client:
 * either a response with a status code and a decoded body, or a thrown error.
 */
module Http {
  import opened Maybe

  /**
   * `Thrown.serverMessage` is `err.response?.data?.message`; the empty string
   * stands for an absent message.
   */
  datatype Outcome<T> = Ok(status: int, data: T) | Thrown(serverMessage: string)

  /** `response.status === 200`. */
  predicate Is200<T>(o: Outcome<T>) { o.Ok? && o.status == 200 }

  /** `response.status === 200 || response.status === 201`. */
  predicate IsCreated<T>(o: Outcome<T>) { o.Ok? && (o.status == 200 || o.status == 201) }

  /** `response.status === 204 || response.status === 200`. */
  predicate IsDeleted<T>(o: Outcome<T>) { o.Ok? && (o.status == 204 || o.status == 200) }

  /** JavaScript truthiness of an error slot holding `null` or a string. */
  predicate Shown(error: Option<string>) { error.Some? && error.value != "" }
}
