/** What a form submit handler does: show an error and stop, or send a request. */
module Forms {

  datatype Submission<R> = Rejected(error: string) | Submitted(request: R)
}
