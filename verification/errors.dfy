/** The error kinds the rendering pipeline can surface. */
module Errors {

  /** The failures that reach the caller of Process, one per stage of the pipeline. */
  datatype Error =
    | ConfigNotFound                              // bp.yaml is absent from the project folder
    | ConfigReadFailed                            // bp.yaml exists but cannot be read as a file
    | ConfigParseError(message: string)           // the configuration parser rejected the text
    | TemplateParseError(name: string, message: string)
    | CreateFailed(path: seq<string>)             // the output file could not be created
    | ExecError(message: string)                  // the template failed while executing
}
