/**
 * The two interfaces of the discovery package, each as a value that carries
 * its behaviour: an implementation is whatever function it computes.
 */
module Resources {
  import opened Wrappers

  /** ResourceCriteria: whether a resource name (None for null) is wanted. */
  datatype ResourceCriteria = ResourceCriteria(matches: Option<string> -> bool)

  /** ResourceListSource: the names of the resources under a base path that satisfy a criteria. */
  datatype ResourceListSource = ResourceListSource(getResources: (string, ResourceCriteria) -> seq<string>)
}
