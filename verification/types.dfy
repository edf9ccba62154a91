/** The record and the enumeration the application shares with the generation
    service (types.ts). */
module Types {

  /** The structured answer of the generator: a complete HTML document, a short
      prose explanation and a title. The client does not validate it, so any
      three strings, empty ones included, are possible values. */
  datatype VisualizationResponse = VisualizationResponse(html: string, explanation: string, title: string)

  /** Which presentation of the held artifact is active: the live sandboxed
      rendering or the source listing. */
  datatype ViewMode = Visualization | Code
}
