/** The error an endpoint answers with: FastAPI's `HTTPException(status_code, detail)`. */
module Http {

  datatype HttpError = HttpError(status: int, detail: string)

  /** The detail `add_texts_to_chroma` and `chat` give when no collection is configured. */
  const NotInitialised: string := "Chroma DB collection is not initialized."
}
