/** What an MVC action returns: a view of a model with the model-state errors added to it, a
    redirect to another action with an optional TempData message, or 404. */
module Web {
  /** The TempData message a redirect carries. */
  datatype Flash = NoFlash | Success(text: string) | Error(text: string) | Info(text: string)

  datatype ActionResult<M> =
    | View(model: M, errors: seq<string>)
    | Redirect(action: string, controller: string, flash: Flash)
    | NotFound
}
