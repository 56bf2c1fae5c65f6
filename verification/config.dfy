/**
  Choice of the API base URL from the page's host name. The test is on
  substrings: a host name merely containing "127.0.0.1" or ".local"
  anywhere counts as local.
 */
module Config {
  import opened JsText

  const LocalApiUrl := "http://localhost:3001/api"
  const ProductionApiUrl := "https://hop-bunny-backend.vercel.app/api"

  /** The host counts as production unless it is `localhost` or contains one of the local markers. */
  predicate IsProduction(hostname: string) {
    && hostname != "localhost"
    && !Includes(hostname, "127.0.0.1")
    && !Includes(hostname, ".local")
  }

  /** `getApiUrl()` with `window.location.hostname` passed in. */
  function GetApiUrl(hostname: string): (url: string)
    ensures url == LocalApiUrl || url == ProductionApiUrl
    ensures url == LocalApiUrl <==>
              || hostname == "localhost"
              || (exists i :: OccursAt(hostname, "127.0.0.1", i))
              || (exists i :: OccursAt(hostname, ".local", i))
  {
    if IsProduction(hostname) then ProductionApiUrl else LocalApiUrl
  }

  /** The two endpoints differ, so the classification is visible in the result. */
  lemma EndpointsDistinct()
    ensures LocalApiUrl != ProductionApiUrl
  {
    assert LocalApiUrl[4] != ProductionApiUrl[4];
  }

  /** Any host with ".local" anywhere in it is local, not only one ending in ".local". */
  lemma LocalMarkerInside(prefix: string, suffix: string)
    ensures GetApiUrl(prefix + ".local" + suffix) == LocalApiUrl
  {
    var h := prefix + ".local" + suffix;
    assert h[|prefix|..|prefix| + 6] == ".local";
    assert OccursAt(h, ".local", |prefix|);
  }

  /** Any host with "127.0.0.1" anywhere in it is local. */
  lemma LoopbackInside(prefix: string, suffix: string)
    ensures GetApiUrl(prefix + "127.0.0.1" + suffix) == LocalApiUrl
  {
    var h := prefix + "127.0.0.1" + suffix;
    assert h[|prefix|..|prefix| + 9] == "127.0.0.1";
    assert OccursAt(h, "127.0.0.1", |prefix|);
  }

  /** A host name with no dot at all (other than "localhost") is production. */
  lemma DotlessIsProduction(hostname: string)
    requires '.' !in hostname && hostname != "localhost"
    ensures GetApiUrl(hostname) == ProductionApiUrl
  {
    forall i
      ensures !OccursAt(hostname, "127.0.0.1", i)
    {
      if 0 <= i && i + 9 <= |hostname| {
        assert hostname[i..i + 9][3] == hostname[i + 3];
      }
    }
    forall i
      ensures !OccursAt(hostname, ".local", i)
    {
      if 0 <= i && i + 6 <= |hostname| {
        assert hostname[i..i + 6][0] == hostname[i];
      }
    }
  }
}
