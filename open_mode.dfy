/** The verb used in the open-failure message for a file-opening mode. */
module OpenMode {
  import opened Wrappers

  /** An opening mode other than 'r', 'w' or 'a' is a fatal configuration error. */
  datatype ModeError = InvalidMode(mode: char)

  predicate IsOpenMode(mode: char) {
    mode == 'r' || mode == 'w' || mode == 'a'
  }

  /** modeToVerb: the fatal default branch becomes an error value. */
  function ModeToVerb(mode: char): (r: Result<string, ModeError>)
    ensures r.Ok? <==> IsOpenMode(mode)
    ensures r.Err? ==> r.error == InvalidMode(mode)
    ensures r.Ok? ==> |r.value| > 0
  {
    match mode
    case 'r' => Ok("reading")
    case 'w' => Ok("writing")
    case 'a' => Ok("appending")
    case _ => Err(InvalidMode(mode))
  }

  /** Distinct modes are reported with distinct verbs. */
  lemma ModeToVerbInjective(m1: char, m2: char)
    requires ModeToVerb(m1).Ok? && ModeToVerb(m2).Ok?
    ensures ModeToVerb(m1) == ModeToVerb(m2) ==> m1 == m2
  {
  }
}
