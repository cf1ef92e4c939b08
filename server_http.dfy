/** The HTTP outcomes the Express controllers produce: a status code and a
    JSON body that is either the payload or `{ message }`. */
module ServerHttp {

  datatype Status = OK | Created | BadRequest | Unauthorized | NotFound | InternalServerError

  function Code(s: Status): int {
    match s
    case OK => 200
    case Created => 201
    case BadRequest => 400
    case Unauthorized => 401
    case NotFound => 404
    case InternalServerError => 500
  }

  datatype Response<T> = Success(status: Status, payload: T) | Failure(status: Status, message: string)
}
