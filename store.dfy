/**
 * The short-link store of the URL shortener: the process-wide `urls` map,
 * the create operation (`createShortURL` without its JSON and HTTP glue)
 * and the resolve operation (`redirectToLongURL` without its HTTP response).
 *
 * The mutex that guards the map only makes each operation atomic, so each
 * Create and each Resolve is one sequential step on a Store object here.
 */
module LinkStore {
  import opened Generator

  /** Prefix of every short link (`baseURL`). */
  const BaseUrl: string := "http://localhost:8080"

  datatype Option<T> = None | Some(value: T)

  /** Outcome of a create request. */
  datatype CreateResult =
    | EmptyLongUrl                             // rejected: the long URL is empty
    | Shortened(code: string, link: string)    // the code written and the short link returned

  /** One successful create: the code written and the long URL it now maps to. */
  datatype Entry = Entry(code: string, target: string)

  /** The short link returned to the client for `code`. */
  function ShortLink(code: string): (link: string)
    ensures |link| == |BaseUrl| + 1 + |code|
    ensures link[..|BaseUrl|] == BaseUrl && link[|BaseUrl|] == '/'
    ensures link[|BaseUrl| + 1..] == code
  {
    BaseUrl + "/" + code
  }

  /**
   * The `:shortURL` parameter that the route `/:shortURL` extracts when the
   * link is followed: the single, non-empty path segment after the base URL.
   */
  function RouteParam(link: string): (param: Option<string>)
    ensures param.Some? ==> param.value != [] && '/' !in param.value
    ensures param.Some? ==> |param.value| < |link| && link[|link| - |param.value|..] == param.value
  {
    var prefix := BaseUrl + "/";
    if |link| > |prefix| && link[..|prefix|] == prefix && '/' !in link[|prefix|..]
    then Some(link[|prefix|..])
    else None
  }

  /** Following the short link of a generated code hands exactly that code to resolve. */
  lemma ShortLinkRoutesToCode(code: string)
    requires IsCode(code)
    ensures RouteParam(ShortLink(code)) == Some(code)
  {
  }

  /** A link that routes to a code is the short link of that code. */
  lemma RouteParamIsShortLink(link: string, code: string)
    requires RouteParam(link) == Some(code)
    ensures ShortLink(code) == link
    ensures code != [] && '/' !in code
  {
  }

  /** The map after writing each entry of `log` in turn: what successive creates build. */
  function Replay(log: seq<Entry>): (urls: map<string, string>)
    ensures |urls| <= |log|
  {
    if log == [] then map[]
    else Replay(log[..|log| - 1])[log[|log| - 1].code := log[|log| - 1].target]
  }

  /** Position of the most recent entry of `log` for `code`, or -1 if there is none. */
  function LastIndex(log: seq<Entry>, code: string): (r: int)
    ensures -1 <= r < |log|
    ensures r >= 0 ==> log[r].code == code
    ensures forall j :: r < j < |log| ==> log[j].code != code
  {
    if log == [] then -1
    else if log[|log| - 1].code == code then |log| - 1
    else LastIndex(log[..|log| - 1], code)
  }

  /**
   * Last writer wins: a code is in the store exactly when some create wrote
   * it, and it then maps to the long URL of the most recent such create.
   */
  lemma {:induction false} ReplayIsLastWriter(log: seq<Entry>, code: string)
    ensures code in Replay(log) <==> LastIndex(log, code) >= 0
    ensures code in Replay(log) ==> Replay(log)[code] == log[LastIndex(log, code)].target
  {
    if log != [] {
      ReplayIsLastWriter(log[..|log| - 1], code);
    }
  }

  /** Entries that a successful create can write. */
  ghost predicate WellFormedLog(log: seq<Entry>) {
    forall i :: 0 <= i < |log| ==> IsCode(log[i].code) && log[i].target != ""
  }

  /** A store built by successful creates holds only generated codes and non-empty URLs. */
  lemma {:induction false} ReplayWellFormed(log: seq<Entry>)
    requires WellFormedLog(log)
    ensures forall c :: c in Replay(log) ==> IsCode(c) && Replay(log)[c] != ""
  {
    if log != [] {
      ReplayWellFormed(log[..|log| - 1]);
    }
  }

  /** The shared code-to-URL table (`urls`). */
  class Store {
    var urls: map<string, string>
    /** Every successful create so far, oldest first. */
    ghost var log: seq<Entry>

    ghost predicate Valid()
      reads this
    {
      urls == Replay(log) && WellFormedLog(log)
    }

    /** The map starts empty. */
    constructor ()
      ensures Valid()
      ensures urls == map[] && log == []
    {
      urls := map[];
      log := [];
    }

    /**
     * `createShortURL`: an empty long URL is rejected and nothing changes;
     * otherwise a code is generated from `choices`, `code -> longUrl` is
     * written into the map (silently replacing an entry with the same code),
     * and the short link for the code is returned.
     */
    method Create(longUrl: string, choices: seq<int>) returns (result: CreateResult)
      requires Valid()
      requires IsDraw(choices)
      modifies this
      ensures Valid()
      ensures longUrl == "" ==> result == EmptyLongUrl && urls == old(urls) && log == old(log)
      ensures longUrl != "" ==>
        result == Shortened(CodeFrom(choices), ShortLink(CodeFrom(choices))) &&
        urls == old(urls)[CodeFrom(choices) := longUrl] &&
        log == old(log) + [Entry(CodeFrom(choices), longUrl)]
      // Read after write, and a repeated code overwrites without growing the map.
      ensures result.Shortened? ==>
        IsCode(result.code) && result.code in urls && urls[result.code] == longUrl &&
        |urls| == if result.code in old(urls) then |old(urls)| else |old(urls)| + 1
      // No other entry is added, removed or changed.
      ensures result.Shortened? ==>
        forall c :: c != result.code ==> (c in urls <==> c in old(urls)) &&
                                         (c in urls ==> urls[c] == old(urls)[c])
    {
      if |longUrl| == 0 {
        return EmptyLongUrl;
      }
      var code := GenerateCode(choices);
      urls := urls[code := longUrl];
      log := log + [Entry(code, longUrl)];
      assert log[..|log| - 1] == old(log);
      result := Shortened(code, ShortLink(code));
    }

    /**
     * `redirectToLongURL`'s lookup: reports whether `code` is a key and, if
     * so, its long URL; like a Go map read, a missing key yields "".
     */
    method Resolve(code: string) returns (longUrl: string, found: bool)
      requires Valid()
      ensures found <==> code in urls
      ensures found ==> longUrl == urls[code]
      ensures !found ==> longUrl == ""
      ensures found ==> IsCode(code) && longUrl != ""
      // Not found exactly when no create ever wrote `code`; otherwise the latest writer's URL.
      ensures found <==> exists i :: 0 <= i < |log| && log[i].code == code
      ensures found ==> longUrl == log[LastIndex(log, code)].target
    {
      ReplayWellFormed(log);
      ReplayIsLastWriter(log, code);
      found := code in urls;
      longUrl := if found then urls[code] else "";
    }
  }

  /** Resolving the code just created yields the long URL that was submitted. */
  method CreateThenResolve(s: Store, longUrl: string, choices: seq<int>)
    returns (result: CreateResult, target: string, found: bool)
    requires s.Valid() && IsDraw(choices)
    modifies s
    ensures s.Valid()
    ensures longUrl == "" <==> result == EmptyLongUrl
    ensures longUrl == "" ==> s.urls == old(s.urls)
    ensures longUrl != "" ==> result.code == CodeFrom(choices) && found && target == longUrl
  {
    result := s.Create(longUrl, choices);
    target, found := "", false;
    if result.Shortened? {
      target, found := s.Resolve(result.code);
    }
  }

  /**
   * A forced collision: two creates that draw the same code. The second
   * replaces the first, the map grows by at most one entry, and the first
   * long URL can no longer be resolved through that code.
   */
  method CollidingCreates(s: Store, first: string, second: string, choices: seq<int>)
    returns (target: string, found: bool)
    requires s.Valid() && IsDraw(choices)
    requires first != "" && second != ""
    modifies s
    ensures s.Valid()
    ensures s.urls == old(s.urls)[CodeFrom(choices) := second]
    ensures |s.urls| <= |old(s.urls)| + 1
    ensures found && target == second
    ensures first != second ==> target != first
  {
    var r1 := s.Create(first, choices);
    var r2 := s.Create(second, choices);
    target, found := s.Resolve(r2.code);
  }

  /** Resolve reads only: asking twice gives the same answer. */
  method ResolveTwice(s: Store, code: string)
    returns (target1: string, found1: bool, target2: string, found2: bool)
    requires s.Valid()
    ensures found1 == found2 && target1 == target2
    ensures found1 <==> code in s.urls
  {
    target1, found1 := s.Resolve(code);
    target2, found2 := s.Resolve(code);
  }

  /** A new store resolves no code. */
  method ResolveOnNewStore(code: string) returns (target: string, found: bool)
    ensures !found && target == ""
  {
    var s := new Store();
    target, found := s.Resolve(code);
  }
}
