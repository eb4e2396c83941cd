/** The CMS's cross-origin allow-list (apps/cms/config/middlewares.ts). */
module CmsMiddlewares {
  import opened Wrappers
  import opened Seqs
  import opened Strings

  /** The web app's local development origin, always allowed. */
  const LocalOrigin := "http://localhost:3000"

  /**
   * `allowedOrigins`: the local origin, then the origins listed in
   * `WEB_ORIGIN` and `WEB_ORIGINS` (`parseOrigins` is `CommaList`), each once.
   */
  function AllowedOrigins(webOrigin: Option<string>, webOrigins: Option<string>): (r: seq<string>)
    ensures r != [] && r[0] == LocalOrigin
    ensures NoDup(r)
    ensures forall o :: o in r <==> o == LocalOrigin || o in CommaList(webOrigin) || o in CommaList(webOrigins)
  {
    var all := [LocalOrigin] + CommaList(webOrigin) + CommaList(webOrigins);
    UniqueHead(all);
    Unique(all)
  }

  /** Origins are listed in the order they are first named, local origin first. */
  lemma OriginsInFirstSeenOrder(webOrigin: Option<string>, webOrigins: Option<string>)
    ensures var all := [LocalOrigin] + CommaList(webOrigin) + CommaList(webOrigins);
      var r := AllowedOrigins(webOrigin, webOrigins);
      forall i, j :: 0 <= i < j < |r| ==> FirstIndex(all, r[i]) < FirstIndex(all, r[j])
  {
    UniqueKeepsFirstOccurrenceOrder([LocalOrigin] + CommaList(webOrigin) + CommaList(webOrigins));
  }

  /** With neither variable set, only the local origin is allowed. */
  lemma UnsetGivesLocalOnly()
    ensures AllowedOrigins(None, None) == [LocalOrigin]
  {
    assert [LocalOrigin] + [] + [] == [LocalOrigin];
    UniqueOfDistinct([LocalOrigin]);
  }
}
