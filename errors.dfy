/**
 * The exceptions the backend throws, by kind and message. The kinds are the
 * NestJS exception classes (and a plain `Error`); the last two stand for the
 * database refusing a write because of a unique index or a foreign key.
 */
module Errors {

  datatype Error =
    | BadRequest(message: string)        // BadRequestException, HTTP 400
    | Unauthorized(message: string)      // UnauthorizedException, HTTP 401
    | NotFound(message: string)          // NotFoundException, HTTP 404
    | Failed(message: string)            // a plain `new Error(message)`
    | UniqueViolation(column: string)    // the store's unique index refused the write
    | ForeignKeyViolation(table: string) // a row of `table` still references the deleted row
}
