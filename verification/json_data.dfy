/**
 * The JSON fetch layer of the frontend: a single fetch with its error conditions, a
 * memoising wrapper whose cache is never evicted, the SHA-256 integrity gate in front of
 * language objects, the current-language cache and the three-valued Zipf query.
 *
 * The network is an input: `Network<T>` is what `window.fetch` produced for one request.
 * The hex SHA-256 of a language object's compact JSON is an uninterpreted function `digest`.
 */
module JsonData {
  import opened Wrappers
  import opened Text

  /** The errors `fetchJson` and the language loader throw. */
  datatype FetchError =
    | NoUrl                                        // "No URL"
    | Transport(reason: string)                    // the rejection of `fetch` itself
    | HttpStatus(status: int, statusText: string)  // "<status> <statusText>"
    | NotJson                                      // "Content is not JSON"
    | BadJson                                      // the rejection of `res.json()`
    | IntegrityFailed                              // "Integrity check failed. ..."

  /** The parts of a fetch response that `fetchJson` looks at; `body` is None when it does not parse. */
  datatype Response<T> = Response(
    ok: bool,
    status: int,
    statusText: string,
    contentType: Option<string>,
    body: Option<T>)

  /** What one request produced: no response at all, or a response. */
  datatype Network<T> = Unreachable(reason: string) | Responded(response: Response<T>)

  predicate IsJsonContentType(contentType: Option<string>) {
    contentType.Some? && StartsWith(contentType.value, "application/json")
  }

  /**
   * `fetchJson(url)`: an empty URL fails before a request is made, whatever the network
   * would have answered; a non-ok status fails with that status; an ok response fails unless
   * its content type starts with "application/json"; otherwise the parsed body is returned.
   * The catch block only logs, so each error reaches the caller as it was raised.
   */
  function FetchJson<T>(url: string, net: Network<T>): (r: Result<T, FetchError>)
    ensures url == "" ==> r == Err(NoUrl)
    ensures r.Ok? <==>
      url != "" && net.Responded? && net.response.ok &&
      IsJsonContentType(net.response.contentType) && net.response.body.Some?
    ensures r.Ok? ==> r.value == net.response.body.value
    ensures url != "" && net.Unreachable? ==> r == Err(Transport(net.reason))
    ensures url != "" && net.Responded? && !net.response.ok ==>
      r == Err(HttpStatus(net.response.status, net.response.statusText))
    ensures (url != "" && net.Responded? && net.response.ok &&
             !IsJsonContentType(net.response.contentType)) ==> r == Err(NotJson)
  {
    if url == "" then Err(NoUrl)
    else match net
      case Unreachable(reason) => Err(Transport(reason))
      case Responded(res) =>
        if res.ok then
          if !IsJsonContentType(res.contentType) then Err(NotJson)
          else if res.body.None? then Err(BadJson)
          else Ok(res.body.value)
        else Err(HttpStatus(res.status, res.statusText))
  }

  /**
   * `memoizeAsync(fn, getKey)`: a map from key to the (promised) result of `fn`. A cached
   * promise is always truthy, so a key that is present is returned as it is, even when its
   * result is a failure; nothing is ever removed.
   *
   * Each call passes `fn` as it would behave at that moment (the network changes between
   * calls); `calls` records every invocation of `fn` with the result it gave.
   */
  class MemoCache<A(==, !new), R> {
    const getKey: Option<A -> A>
    var cache: map<A, R>
    ghost var calls: seq<(A, R)>

    /** `getKey ? getKey(...args) : args[0]` for a one-argument function. */
    function KeyOf(args: A): A {
      if getKey.Some? then getKey.value(args) else args
    }

    /** `fn` ran at most once per key, and every cached result is the one it returned. */
    ghost predicate Valid()
      reads this
    {
      (forall i, j :: 0 <= i < j < |calls| ==> KeyOf(calls[i].0) != KeyOf(calls[j].0)) &&
      (forall i :: 0 <= i < |calls| ==>
        KeyOf(calls[i].0) in cache && cache[KeyOf(calls[i].0)] == calls[i].1) &&
      (forall k :: k in cache ==> exists i :: 0 <= i < |calls| && KeyOf(calls[i].0) == k)
    }

    constructor (getKey: Option<A -> A>)
      ensures Valid()
      ensures this.getKey == getKey && cache == map[] && calls == []
    {
      this.getKey := getKey;
      cache := map[];
      calls := [];
    }

    /** The memoised function: a hit returns the stored result, a miss runs `fn` once and stores it. */
    method Call(args: A, fn: A -> R) returns (r: R)
      requires Valid()
      modifies this
      ensures Valid()
      ensures KeyOf(args) in old(cache) ==>
        r == old(cache)[KeyOf(args)] && cache == old(cache) && calls == old(calls)
      ensures KeyOf(args) !in old(cache) ==>
        r == fn(args) && cache == old(cache)[KeyOf(args) := r] && calls == old(calls) + [(args, r)]
    {
      var key := KeyOf(args);
      if key in cache {
        r := cache[key];
        return;
      }
      r := fn(args);
      cache := cache[key := r];
      calls := calls + [(args, r)];
      forall k | k in cache
        ensures exists i :: 0 <= i < |calls| && KeyOf(calls[i].0) == k
      {
        if k == key {
          assert KeyOf(calls[|calls| - 1].0) == k;
        } else {
          assert k in old(cache);
          var i :| 0 <= i < |old(calls)| && KeyOf(old(calls)[i].0) == k;
          assert calls[i] == old(calls)[i];
        }
      }
    }
  }

  /** `cachedFetchJson(url)`: `fetchJson` memoised by URL. */
  method CachedFetchJson<T>(m: MemoCache<string, Result<T, FetchError>>, url: string, net: Network<T>)
    returns (r: Result<T, FetchError>)
    requires m.Valid() && m.getKey.None?
    modifies m
    ensures m.Valid()
    ensures url in old(m.cache) ==>
      r == old(m.cache)[url] && m.cache == old(m.cache) && m.calls == old(m.calls)
    ensures url !in old(m.cache) ==>
      r == FetchJson(url, net) && m.cache == old(m.cache)[url := r] && m.calls == old(m.calls) + [(url, r)]
  {
    r := m.Call(url, (u: string) => FetchJson(u, net));
  }

  /**
   * Two requests for one URL through a fresh `cachedFetchJson`: whatever the network does
   * the second time, the second call returns the first call's outcome, a failure included,
   * and the network is asked once.
   */
  method FetchSameUrlTwice<T>(url: string, first: Network<T>, second: Network<T>)
    returns (r1: Result<T, FetchError>, r2: Result<T, FetchError>)
    ensures r1 == FetchJson(url, first)
    ensures r2 == r1
  {
    var m := new MemoCache<string, Result<T, FetchError>>(None);
    r1 := CachedFetchJson(m, url, first);
    r2 := CachedFetchJson(m, url, second);
    assert m.calls == [(url, r1)];
  }

  /** A language file as far as this layer looks into it. */
  datatype LanguageObject = LanguageObject(
    name: string,
    orderedByFrequency: Option<bool>,
    words: seq<string>)

  function LanguageUrl(lang: string): string {
    "/languages/" + lang + ".json"
  }

  /** The bundled table has an entry for `lang` and it equals the object's digest. */
  predicate IntegrityOk(lang: string, obj: LanguageObject, digest: LanguageObject -> string,
                        hashes: map<string, string>)
  {
    lang in hashes && digest(obj) == hashes[lang]
  }

  /**
   * The function `cachedFetchLanguage` memoises: fetch `/languages/<lang>.json` and, outside
   * development builds, refuse the object unless its digest equals `languageHashes[lang]`.
   */
  function LoadLanguage(lang: string, net: Network<LanguageObject>, dev: bool,
                        digest: LanguageObject -> string, hashes: map<string, string>)
    : (r: Result<LanguageObject, FetchError>)
    ensures FetchJson(LanguageUrl(lang), net).Err? ==> r == FetchJson(LanguageUrl(lang), net)
    ensures r.Ok? ==> FetchJson(LanguageUrl(lang), net) == Ok(r.value)
    ensures r.Ok? && !dev ==> IntegrityOk(lang, r.value, digest, hashes)
    ensures FetchJson(LanguageUrl(lang), net).Ok? ==>
      (r.Ok? <==> dev || IntegrityOk(lang, FetchJson(LanguageUrl(lang), net).value, digest, hashes))
    ensures r.Err? && FetchJson(LanguageUrl(lang), net).Ok? ==> r == Err(IntegrityFailed)
  {
    var loaded := FetchJson(LanguageUrl(lang), net);
    if loaded.Err? then loaded
    else if !dev && !IntegrityOk(lang, loaded.value, digest, hashes) then Err(IntegrityFailed)
    else loaded
  }

  datatype ZipfSupport = Yes | No | Unknown

  /** `checkIfLanguageSupportsZipf`'s answer: only a literal true or false is decisive. */
  function ZipfSupportOf(orderedByFrequency: Option<bool>): (r: ZipfSupport)
    ensures r == Yes <==> orderedByFrequency == Some(true)
    ensures r == No <==> orderedByFrequency == Some(false)
    ensures r == Unknown <==> orderedByFrequency.None?
  {
    match orderedByFrequency
    case Some(true) => Yes
    case Some(false) => No
    case None => Unknown
  }

  /**
   * Two `getLanguage(lang)` calls on a fresh module: the second returns the first's outcome
   * whatever the network does the second time, so a failed load, a failed integrity check
   * included, stays failed.
   */
  method GetLanguageTwice(lang: string, first: Network<LanguageObject>, second: Network<LanguageObject>,
                          dev: bool, digest: LanguageObject -> string, hashes: map<string, string>)
    returns (r1: Result<LanguageObject, FetchError>, r2: Result<LanguageObject, FetchError>)
    ensures r1 == LoadLanguage(lang, first, dev, digest, hashes)
    ensures r2 == r1
  {
    var loader := new LanguageLoader(dev, digest, hashes);
    r1 := loader.GetLanguage(lang, first);
    r2 := loader.GetLanguage(lang, second);
  }

  /** The module state behind `getLanguage`: `currentLanguage` and the memoised loader. */
  class LanguageLoader {
    var currentLanguage: Option<LanguageObject>
    const loader: MemoCache<string, Result<LanguageObject, FetchError>>
    const dev: bool
    const digest: LanguageObject -> string
    const hashes: map<string, string>

    /** Outside development builds, every language object held passed the integrity check. */
    ghost predicate Valid()
      reads this, loader
    {
      loader.Valid() && loader.getKey.None? &&
      (forall l :: l in loader.cache && loader.cache[l].Ok? && !dev ==>
        IntegrityOk(l, loader.cache[l].value, digest, hashes)) &&
      (currentLanguage.Some? && !dev ==> digest(currentLanguage.value) in hashes.Values)
    }

    constructor (dev: bool, digest: LanguageObject -> string, hashes: map<string, string>)
      ensures Valid() && fresh(loader)
      ensures currentLanguage.None? && loader.cache == map[]
      ensures this.dev == dev && this.digest == digest && this.hashes == hashes
    {
      currentLanguage := None;
      loader := new MemoCache(None);
      this.dev, this.digest, this.hashes := dev, digest, hashes;
    }

    /** Whether `getLanguage(lang)` goes to the loader: nothing held yet, or another language. */
    function NeedsLoad(lang: string): bool
      reads this
    {
      currentLanguage.None? || currentLanguage.value.name != lang
    }

    /** What `getLanguage(lang)` resolves to in the current state. */
    ghost function Outcome(lang: string, net: Network<LanguageObject>): Result<LanguageObject, FetchError>
      reads this, loader
    {
      if !NeedsLoad(lang) then Ok(currentLanguage.value)
      else if lang in loader.cache then loader.cache[lang]
      else LoadLanguage(lang, net, dev, digest, hashes)
    }

    /**
     * `getLanguage(lang)`: asks the memoised loader only when `NeedsLoad(lang)`, keeps a
     * loaded object as `currentLanguage` and returns `currentLanguage`; a failure leaves
     * `currentLanguage` as it was.
     */
    method GetLanguage(lang: string, net: Network<LanguageObject>)
      returns (r: Result<LanguageObject, FetchError>)
      requires Valid()
      modifies this, loader
      ensures Valid()
      ensures r == old(Outcome(lang, net))
      ensures r.Ok? ==> currentLanguage == Some(r.value)
      ensures r.Err? ==> currentLanguage == old(currentLanguage)
      ensures loader.cache ==
        if old(NeedsLoad(lang)) && lang !in old(loader.cache) then old(loader.cache)[lang := r]
        else old(loader.cache)
      ensures r.Ok? && !dev ==> digest(r.value) in hashes.Values
    {
      if NeedsLoad(lang) {
        var d, h, g := dev, hashes, digest;
        var loaded := loader.Call(lang, (l: string) => LoadLanguage(l, net, d, g, h));
        if loaded.Err? {
          return loaded;
        }
        assert lang in loader.cache && loader.cache[lang] == loaded;
        currentLanguage := Some(loaded.value);
      }
      r := Ok(currentLanguage.value);
    }

    /** `checkIfLanguageSupportsZipf(language)`: the language's `orderedByFrequency`, three-valued. */
    method CheckIfLanguageSupportsZipf(language: string, net: Network<LanguageObject>)
      returns (r: Result<ZipfSupport, FetchError>)
      requires Valid()
      modifies this, loader
      ensures Valid()
      ensures old(Outcome(language, net)).Err? ==> r == Err(old(Outcome(language, net)).error)
      ensures old(Outcome(language, net)).Ok? ==>
        r == Ok(ZipfSupportOf(old(Outcome(language, net)).value.orderedByFrequency))
      ensures old(Outcome(language, net)).Ok? ==> currentLanguage == Some(old(Outcome(language, net)).value)
      ensures old(Outcome(language, net)).Err? ==> currentLanguage == old(currentLanguage)
      ensures loader.cache ==
        if old(NeedsLoad(language)) && language !in old(loader.cache)
        then old(loader.cache)[language := old(Outcome(language, net))]
        else old(loader.cache)
    {
      var lang := GetLanguage(language, net);
      if lang.Err? {
        return Err(lang.error);
      }
      r := Ok(ZipfSupportOf(lang.value.orderedByFrequency));
    }
  }
}
