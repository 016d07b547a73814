/**
 * The error values the server compares with `errors.Is`:
 * the repository's `ErrTaskNotFound` and the service's `ErrInvalidTitle` and
 * `ErrInvalidStatus`. `Unexpected` stands for any other error a repository
 * implementation may return; the in-memory repository returns none.
 */
module Errors {
  datatype Error = TaskNotFound | InvalidTitle | InvalidStatus | Unexpected
}
