/** A way to keep a definition closed: `forall key {:trigger Opened(key)} ::
    Opened(key) ==> Body` says Body, but only a proof that mentions `Opened` sees it. */
module Seal {
  predicate Opened(key: int) { true }
}
