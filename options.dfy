/** The optional value used for the held token (None: empty hand) and for the
    result of parsing a cell key. */
module Options {

  datatype Option<+T> = None | Some(value: T)
}
