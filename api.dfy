/** The shapes the REST client of `src/services/api.ts` hands to the pages. The client
    itself (axios, headers, error-message extraction) is not modelled: every awaited
    call is an input to the handler that made it. */
module Api {
  import opened Js

  /** How one awaited client call ended: the promise resolved with the response body,
      or it rejected with an `Error` whose message the client extracted (an API error
      body's `message`/`error`, or a network error). */
  datatype Call<T> = Resolved(body: T) | Thrown(message: string)

  /** The response envelope `{ success, data, message }`; an absent `message` is "". */
  datatype Envelope<T> = Envelope(success: bool, data: T, message: string)

  /** The `{ success, message }` body of a delete. */
  datatype Ack = Ack(success: bool, message: string)

  /** `message || fallback`: an empty message is falsy. */
  function OrElse(message: string, fallback: string): (r: string)
    ensures fallback != "" ==> r != ""
    ensures message != "" ==> r == message
  {
    if message != "" then message else fallback
  }

  /** A course record as the course endpoints return it (`CourseData` plus the
      server's `_id`, `status` and timestamps). */
  datatype Course = Course(
    id: string,
    name: string,
    description: string,
    chapters: int,
    includeVideos: bool,
    category: string,
    difficulty: string,
    status: string,
    createdAt: string,
    updatedAt: string)

  /** The `data` of an auth response: the user and a fresh token. */
  datatype AuthData = AuthData(id: string, name: string, email: string, role: string, token: string)

  /** The `pagination` part of a course list. */
  datatype Pagination = Pagination(currentPage: int, totalPages: int, totalItems: int, itemsPerPage: int)

  /** The body of a paginated course list (`CoursesListResponse`). */
  datatype CourseList = CourseList(success: bool, data: seq<Course>, pagination: Pagination)

  /** JavaScript truthiness of a token read from state or storage: present and non-empty. */
  predicate HasToken(token: Option<string>) {
    token.Some? && token.value != ""
  }
}
