/** Option and Result types, and the Python exceptions that the modelled
    code raises or lets escape to its caller. */
module Wrappers {

  datatype Option<+T> = None | Some(value: T)

  /** One constructor per exception the modelled code can end in. */
  datatype Exception =
    /** UnboundLocalError: `metric` was never assigned because the metric
        name matched neither branch of the lookup. */
    | UnboundMetric
    /** ValueError from np.concatenate on an empty list of arrays. */
    | NothingToConcatenate
    /** ValueError from pd.DataFrame given columns of unequal length. */
    | LengthMismatch
    /** KeyError from .loc when a requested label is not in the index. */
    | MissingLabel
    /** IndexError from indexing the gene axis of an empty CNV array. */
    | EmptyGeneAxis

  datatype Result<+T> = Ok(value: T) | Err(error: Exception)
}
