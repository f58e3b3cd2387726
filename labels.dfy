/** The placeholder an objective state's label falls back to when it is empty. */
module Labels {

  const Untitled: string := "(Untitled)"

  /** What the `Label` getter returns, and stores, for a stored label `s`. */
  function Healed(s: string): (r: string)
    ensures r != []
    ensures s != [] ==> r == s
  {
    if s == [] then Untitled else s
  }

  /** Reading the label a second time returns the same text and stores nothing new. */
  lemma HealedIsIdempotent(s: string)
    ensures Healed(Healed(s)) == Healed(s)
  {
  }
}
