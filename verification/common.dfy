/** Values shared by the explore store, the backup archive and the data-source helpers. */
module Common {

  /** A value that may be missing: `undefined` or `null` in the application. */
  datatype Option<+T> = None | Some(value: T) {

    /** The `??` operator: the value when present, otherwise `default`. */
    function OrElse(default: T): T {
      match this
      case Some(v) => v
      case None => default
    }
  }

  /** One cell of a dataset row. */
  datatype Cell = Text(text: string) | Number(x: real) | Null

  /** A dataset row: field identifier to cell. */
  type Row = map<string, Cell>
}
