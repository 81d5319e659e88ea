/** fileExists: the one query this core makes of the file system. */
module ExistenceProbe {
  import opened Wrappers

  /** False for a null file; otherwise the answer of the backing store's existence
      query, which is a parameter so that a test can substitute its own. */
  function FileExists<F>(file: Option<F>, probe: F -> bool): (r: bool)
    ensures file.None? ==> !r
    ensures file.Some? ==> r == probe(file.value)
  {
    match file
    case None => false
    case Some(f) => probe(f)
  }
}
