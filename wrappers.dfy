/**
 * Option and Result, the shapes the Rust code returns (`Option<T>`, `Result<T, E>`), and
 * `Path`, the file paths both the CLI and the macros pass around (`PathBuf`).
 */
module Wrappers {

  type Path = string

  datatype Option<+T> = None | Some(value: T)

  datatype Result<+T, +E> = Ok(value: T) | Err(error: E)
}
