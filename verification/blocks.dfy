/**
 * The positioned text fragment ("text block") that both extractors emit and the
 * prompt builder consumes, and the Python exceptions the pipeline raises.
 */
module Blocks {
  import opened Wrappers

  /**
   * A text block is a dictionary; each key may be absent, so each is an Option.
   * PDF blocks carry font, size and colour; OCR blocks carry a confidence.
   */
  datatype Block = Block(
    text: Option<string>,
    page: Option<int>,
    x0: Option<real>,
    y0: Option<real>,
    x1: Option<real>,
    y1: Option<real>,
    font: Option<string>,
    size: Option<real>,
    color: Option<int>,
    confidence: Option<real>)

  /** The exceptions raised along the pipeline, with their messages. */
  datatype Exception =
    | FileNotFoundError(message: string)
    | ValueError(message: string)
    | KeyError(key: string)
}
