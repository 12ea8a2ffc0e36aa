/** The closed catalogue of error kinds (errors/kinds.go). */
module Kinds {

  /** `errorKind`: a string-valued category tag. Any string converts to an
      errorKind; only the twelve catalogue members are valid. */
  datatype ErrorKind = ErrorKind(name: string)

  const NotFoundKind := ErrorKind("not found")
  const InvalidInputKind := ErrorKind("invalid input error")
  const NotAllowedKind := ErrorKind("not allowed")
  const UnauthorizedKind := ErrorKind("unauthorized error")
  const InternalKind := ErrorKind("internal error")
  const NotImplementedKind := ErrorKind("not implemented error")
  const GraphqlResponseKind := ErrorKind("graphql error response")
  const TransientKhanServiceKind := ErrorKind("transient khan service error")
  const KhanServiceKind := ErrorKind("khan service error")
  const TransientServiceKind := ErrorKind("transient service error")
  const ServiceKind := ErrorKind("service error")
  /** The kind with no constructor: the default when nothing else is known. */
  const UnspecifiedKind := ErrorKind("unspecified error")

  /** The twelve kinds in declaration order. */
  const Catalogue: seq<ErrorKind> := [
    NotFoundKind, InvalidInputKind, NotAllowedKind, UnauthorizedKind,
    InternalKind, NotImplementedKind, GraphqlResponseKind,
    TransientKhanServiceKind, KhanServiceKind, TransientServiceKind,
    ServiceKind, UnspecifiedKind
  ]

  /** errorKind.IsValidKind: a switch over the twelve constants. */
  function IsValidKind(k: ErrorKind): (valid: bool)
    ensures valid <==> k in Catalogue
  {
    || k == GraphqlResponseKind
    || k == InternalKind
    || k == InvalidInputKind
    || k == KhanServiceKind
    || k == NotAllowedKind
    || k == NotFoundKind
    || k == NotImplementedKind
    || k == ServiceKind
    || k == TransientKhanServiceKind
    || k == TransientServiceKind
    || k == UnauthorizedKind
    || k == UnspecifiedKind
  }

  /** errorKind.Error: the kind used as an error displays as its own string. */
  function ErrorOf(k: ErrorKind): (s: string)
    ensures ErrorKind(s) == k
  {
    k.name
  }

  /** errorKind.String: the same string, for the fmt package. */
  function StringOf(k: ErrorKind): (s: string)
    ensures ErrorKind(s) == k
    ensures s == ErrorOf(k)
  {
    k.name
  }

  /** The twelve strings are pairwise distinct, so the catalogue has twelve
      members and each kind is told apart by its text alone. */
  lemma CatalogueDistinct()
    ensures |Catalogue| == 12
    ensures forall i, j :: 0 <= i < j < |Catalogue| ==> ErrorOf(Catalogue[i]) != ErrorOf(Catalogue[j])
  {
    forall i, j | 0 <= i < j < |Catalogue|
      ensures ErrorOf(Catalogue[i]) != ErrorOf(Catalogue[j])
    {
      var a, b := Catalogue[i].name, Catalogue[j].name;
      if |a| == |b| {
        // only "unauthorized error" and "khan service error" share a length
        assert a[0] != b[0];
      }
    }
  }
}
