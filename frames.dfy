/** The tabular data the loaders and the sync service pass around. */
module Frames {
  /**
   * A price table. Only its rows matter to the logic modelled here (whether
   * it is empty, and which table was stored or returned); columns and the
   * numeric contents are abstract.
   */
  datatype Frame = Frame(rows: seq<string>)
  {
    /** pandas' `df.empty`. */
    predicate IsEmpty()
    {
      |rows| == 0
    }
  }
}
