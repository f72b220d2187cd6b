/** What a route handler sends back: a status code with a JSON body, or an error message. */
module Http {

  datatype Reply<T> = Ok(status: int, value: T) | Err(status: int, message: string)

  /** The catch-all message of the handlers' `catch` blocks. */
  const ServerError: string := "Erreur serveur"
}
