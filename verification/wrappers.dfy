/** The optional value used for the nullable state cells of the application
    (`string | null`, `VisualizationResponse | null`). */
module Wrappers {

  datatype Option<+T> = None | Some(value: T)
}
