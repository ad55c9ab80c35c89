/**
 * Who the signed-in user is and how both request views search for that
 * user's pull requests. Both views resolve the user the same way; they differ
 * only in the sort key of the query.
 */
module RequestSearch {
  import opened Wrappers
  import opened JsString

  /** What `catalogApi.getEntityByRef` gave: it threw, it found nothing, or it found an entity. */
  datatype CatalogLookup = LookupFailed | NoEntity | Entity(name: string)

  /** The search sort orders the two views use. */
  datatype SortOrder = CreatedDesc | UpdatedDesc

  const Organization: string := "TalesBusiness"

  /** The title prefix of the pull requests the infrastructure templates open. */
  const InfraTitlePrefix: string := "Infra: "

  /** `userEntityRef.split('/')[1]`, `undefined` when the ref has no `/`. */
  function DefaultUser(userEntityRef: string): Option<string>
  {
    Segment(userEntityRef, '/', 1)
  }

  /**
   * The user searched for: the name after the `/` of the entity ref, replaced by
   * the catalog entity's name only when the lookup returned an entity.
   */
  function ResolveUser(userEntityRef: string, lookup: CatalogLookup): (user: string)
    ensures lookup.Entity? ==> user == lookup.name
    ensures !lookup.Entity? && DefaultUser(userEntityRef).Some? ==> '/' !in user
    ensures !lookup.Entity? && DefaultUser(userEntityRef).None? ==> user == Undefined
  {
    match lookup
    case Entity(name) => name
    case _ => Show(DefaultUser(userEntityRef))
  }

  /** For a ref `kind:namespace/name` with a single `/`, the default user is `name`. */
  lemma DefaultUserOfRef(namespaced: string, name: string)
    requires '/' !in namespaced && '/' !in name
    ensures DefaultUser(namespaced + "/" + name) == Some(name)
    ensures forall lookup: CatalogLookup :: !lookup.Entity? ==> ResolveUser(namespaced + "/" + name, lookup) == name
  {
    SplitJoin([namespaced, name], '/');
    assert Join([namespaced, name], '/') == namespaced + "/" + name;
  }

  /** The documented example: `user:default/tales` searches for `tales` when the catalog has no entity. */
  lemma ResolveUserExample()
    ensures ResolveUser("user:default/tales", NoEntity) == "tales"
    ensures ResolveUser("user:default/tales", LookupFailed) == "tales"
  {
    DefaultUserOfRef("user:default", "tales");
    assert "user:default" + "/" + "tales" == "user:default/tales";
  }

  /** `Solicitante: @<user>`: the line the infrastructure templates put in a pull request's description. */
  function SearchTerm(user: string): (term: string)
    ensures StartsWith(term, "Solicitante: @") && term[14..] == user
  {
    "Solicitante: @" + user
  }

  function SortKey(order: SortOrder): string
  {
    match order
    case CreatedDesc => "sort:created-desc"
    case UpdatedDesc => "sort:updated-desc"
  }

  /** `is:pr org:TalesBusiness sort:<order> "Solicitante: @<user>"`: the search term, quoted, closes the query. */
  function SearchQuery(order: SortOrder, user: string): (q: string)
    ensures StartsWith(q, "is:pr org:" + Organization + " " + SortKey(order) + " ")
    ensures |q| == |"is:pr org:" + Organization + " " + SortKey(order) + " "| + |SearchTerm(user)| + 2
    ensures q[|q| - |SearchTerm(user)| - 2..] == "\"" + SearchTerm(user) + "\""
  {
    var qualifiers := "is:pr org:" + Organization + " " + SortKey(order) + " ";
    var quoted := "\"" + SearchTerm(user) + "\"";
    assert (qualifiers + quoted)[..|qualifiers|] == qualifiers;
    assert (qualifiers + quoted)[|qualifiers|..] == quoted;
    qualifiers + quoted
  }
}
