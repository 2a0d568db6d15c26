/** Error values and the result/option wrappers shared by every component
    (src/error.rs). */
module Errors {

  datatype Option<T> = None | Some(value: T)

  /** The engine's error taxonomy. `MultipleCellReturn` is used by the table
      driver but missing from the error enumeration it imports; it is added
      here. `UnimplementedCellKind` stands for the panic a cell with an
      unsupported first character causes during construction. */
  datatype TableError =
    | MismatchedColumns
    | EmptyTable
    | ErrorReadingFile
    | InvalidCell(message: string)
    | ErrorConstructingAst(message: string)
    | RuntimeError(message: string)
    | RecursiveCellExpr(row: nat, col: nat)
    | EmptyCell
    | EmptyCellEvaluation
    | MultipleCellReturn
    | UnimplementedCellKind

  datatype Result<T> = Ok(value: T) | Err(error: TableError)
}
