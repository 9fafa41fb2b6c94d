/** The exceptions that cross the layers of the system, as values. */
module Exceptions {

  datatype Exception =
      /** java.lang.IllegalArgumentException: malformed id, missing record. */
    | IllegalArgument(message: string)
      /** org.hibernate.PropertyValueException: null in a NOT NULL column. */
    | PropertyValue(message: string)
      /** A value the database refuses for the named column or constraint. */
    | DataIntegrity(constraint: string)
      /** io.jsonwebtoken.MalformedJwtException. */
    | MalformedJwt(message: string)
      /** java.lang.StringIndexOutOfBoundsException from `substring`. */
    | StringIndexOutOfBounds(beginIndex: int, length: int)
      /** HttpClientErrorException raised while validating a token. */
    | HttpClientError(status: int, message: string)
}
