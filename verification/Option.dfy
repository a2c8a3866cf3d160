/** The optional value every other module shares: Go's nil and comma-ok results,
    TypeScript's null and undefined. */
module Options {
  datatype Option<+T> = None | Some(value: T)
}
