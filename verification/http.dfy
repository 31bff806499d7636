/** The responses the handlers send: a status code and a JSON body. */
module Http {
  import opened Values

  datatype Body =
    | Error(message: string)
    | Token(token: string)
    | NoContent
    | NewUser(email: Json, userId: string)
    | NewFile(fileId: ObjectId, ownerId: string, name: Json, fileType: Json, isPublic: Json, parentId: Json)

  datatype Response = Response(status: int, body: Body)

  const Unauthorized := Response(401, Error("Unauthorized"))

  const InternalError := Response(500, Error("Internal server error"))

  function BadRequest(message: string): Response
  {
    Response(400, Error(message))
  }
}
