/** scanners/xss.py: the static reflected-XSS probe. Each query parameter in turn gets each
    payload; a payload that comes back verbatim in an HTML response is a finding, and the first
    such payload ends the probing of that parameter. */
module StaticXss {
  import opened Wrappers
  import opened Strings
  import opened Collaborators
  import opened QueryParams
  import opened ScanBase

  const Payloads: seq<string> := ["<script>alert(1337)</script>", "\"'><svg onload=alert(1337)>"]

  const ReflectedName: string := "Reflected XSS (basic)"

  /** The URL with `param` set to `payload` in its query, every other pair kept. */
  function ChangedUrl(lib: UrlLib, url: string, param: string, payload: string): string {
    lib.withQuery(url, ReplaceParam(lib.queryPairs(url), param, payload))
  }

  /** Under urllib's round trip, the probed URL carries exactly the mutated pairs, so it has
      the same parameters as the URL being scanned. */
  lemma ChangedUrlPairs(lib: UrlLib, url: string, param: string, payload: string)
    requires QueryRoundTrips(lib)
    ensures lib.queryPairs(ChangedUrl(lib, url, param, payload)) == ReplaceParam(lib.queryPairs(url), param, payload)
    ensures ParamNames(lib.queryPairs(ChangedUrl(lib, url, param, payload))) == ParamNames(lib.queryPairs(url))
  {
    ParamNamesAfterReplace(lib.queryPairs(url), param, payload);
  }

  function Detail(param: string, payload: string): string {
    "Parameter '" + param + "' appears to be reflected without encoding. Tested payload: " + payload
  }

  /** The request for `param` set to `payload` succeeds, the response is HTML, and the
      payload occurs verbatim in its body. */
  predicate Reflects(client: HttpClient, lib: UrlLib, url: string, param: string, payload: string) {
    var resp := client.get(ChangedUrl(lib, url, param, payload));
    resp.Some? && IsHtml(resp.value) && Contains(resp.value.text, payload)
  }

  /** The finding reported for a reflected payload. */
  function Finding(lib: UrlLib, url: string, param: string, payload: string): ScanResult {
    ScanResult(ChangedUrl(lib, url, param, payload), ReflectedName, "HIGH", Detail(param, payload))
  }

  /** One pass of the inner loop of `scan`: a failed request or a non-HTML response skips the
      payload, as does a body without it. */
  function Attempt(client: HttpClient, lib: UrlLib, url: string, param: string, payload: string): Option<ScanResult>
  {
    if Reflects(client, lib, url, param, payload) then Some(Finding(lib, url, param, payload)) else None
  }

  /** Each payload's outcome for one parameter, in list order. */
  function AttemptEach(client: HttpClient, lib: UrlLib, url: string, param: string, payloads: seq<string>)
    : (r: seq<Option<ScanResult>>)
    ensures |r| == |payloads|
    ensures forall i :: 0 <= i < |payloads| ==> r[i] == Attempt(client, lib, url, param, payloads[i])
  {
    seq(|payloads|, i requires 0 <= i < |payloads| => Attempt(client, lib, url, param, payloads[i]))
  }

  /** The inner `for payload` loop: the finding of the first payload that produces one. */
  function FirstReflection(client: HttpClient, lib: UrlLib, url: string, param: string, payloads: seq<string>): Option<ScanResult>
  {
    FirstSome(AttemptEach(client, lib, url, param, payloads))
  }

  /** The first-hit rule, both ways: no finding iff no payload produces one; otherwise the
      finding is that of some payload and every earlier payload produced none (a failed
      request or a non-HTML response only skips that payload). */
  lemma FirstReflectionSpec(client: HttpClient, lib: UrlLib, url: string, param: string, payloads: seq<string>)
    ensures var r := FirstReflection(client, lib, url, param, payloads);
      && (r.None? <==> forall i :: 0 <= i < |payloads| ==> Attempt(client, lib, url, param, payloads[i]).None?)
      && (r.Some? ==> exists i :: 0 <= i < |payloads| && Attempt(client, lib, url, param, payloads[i]) == r
                        && forall j :: 0 <= j < i ==> Attempt(client, lib, url, param, payloads[j]).None?)
  {
    var each := AttemptEach(client, lib, url, param, payloads);
    FirstSomeSpec(each);
    if FirstSome(each).Some? {
      var i :| 0 <= i < |each| && each[i] == FirstSome(each) && forall j :: 0 <= j < i ==> each[j].None?;
      assert each[i] == Attempt(client, lib, url, param, payloads[i]);
    }
  }

  /** The finding for each parameter, in the order `scan` probes them. */
  function PerParam(client: HttpClient, lib: UrlLib, url: string, params: seq<string>, payloads: seq<string>)
    : (r: seq<Option<ScanResult>>)
    ensures |r| == |params|
    ensures forall i :: 0 <= i < |params| ==> r[i] == FirstReflection(client, lib, url, params[i], payloads)
  {
    seq(|params|, i requires 0 <= i < |params| => FirstReflection(client, lib, url, params[i], payloads))
  }

  /** What `scan` returns. */
  function ScanSpec(client: HttpClient, lib: UrlLib, url: string, payloads: seq<string>): seq<ScanResult> {
    Somes(PerParam(client, lib, url, ParamNames(lib.queryPairs(url)), payloads))
  }

  /** No query parameters, no findings. */
  lemma ScanWithoutParams(client: HttpClient, lib: UrlLib, url: string, payloads: seq<string>)
    requires lib.queryPairs(url) == []
    ensures ScanSpec(client, lib, url, payloads) == []
  {
    ParamNamesEmpty(lib.queryPairs(url));
  }

  /** No more findings than parameters, and each is sound: it is the finding of a payload
      that is reflected on a parameter of the URL. */
  lemma ScanFindings(client: HttpClient, lib: UrlLib, url: string, payloads: seq<string>)
    ensures var params := ParamNames(lib.queryPairs(url));
      && |ScanSpec(client, lib, url, payloads)| <= |params|
      && forall r :: r in ScanSpec(client, lib, url, payloads) ==>
           exists param, payload :: param in params && payload in payloads
             && Reflects(client, lib, url, param, payload) && r == Finding(lib, url, param, payload)
  {
    var params := ParamNames(lib.queryPairs(url));
    var each := PerParam(client, lib, url, params, payloads);
    SomesMembers(each);
    forall r | r in ScanSpec(client, lib, url, payloads)
      ensures exists param, payload :: param in params && payload in payloads
                && Reflects(client, lib, url, param, payload) && r == Finding(lib, url, param, payload)
    {
      var k :| 0 <= k < |each| && each[k] == Some(r);
      var payload := FirstReflectionSound(client, lib, url, params[k], payloads, r);
      assert params[k] in params;
    }
  }

  /** `ks` lists, in increasing order, the indices of the parameters that have a finding,
      and the i-th finding is that parameter's. */
  ghost predicate FindingIndices(client: HttpClient, lib: UrlLib, url: string, payloads: seq<string>,
                                 results: seq<ScanResult>, ks: seq<nat>)
  {
    var params := ParamNames(lib.queryPairs(url));
    && |ks| == |results|
    && (forall i, j :: 0 <= i < j < |ks| ==> ks[i] < ks[j])
    && (forall i :: 0 <= i < |ks| ==>
          ks[i] < |params| && FirstReflection(client, lib, url, params[ks[i]], payloads) == Some(results[i]))
    && (forall k :: 0 <= k < |params| && FirstReflection(client, lib, url, params[k], payloads).Some? ==> k in ks)
  }

  /** One finding per parameter: the findings come, in order, from strictly increasing
      positions of the (distinct) sorted parameters, each the first reflection of its
      parameter, and every parameter with a reflection contributes. */
  lemma ScanOnePerParam(client: HttpClient, lib: UrlLib, url: string, payloads: seq<string>)
    ensures exists ks :: FindingIndices(client, lib, url, payloads, ScanSpec(client, lib, url, payloads), ks)
  {
    var params := ParamNames(lib.queryPairs(url));
    var each := PerParam(client, lib, url, params, payloads);
    var ks := SomeIndices(each);
    forall i | 0 <= i < |ks|
      ensures ks[i] < |params| && FirstReflection(client, lib, url, params[ks[i]], payloads) == Some(Somes(each)[i])
    {
      assert each[ks[i]] == FirstReflection(client, lib, url, params[ks[i]], payloads);
    }
    forall k | 0 <= k < |params| && FirstReflection(client, lib, url, params[k], payloads).Some?
      ensures k in ks
    {
      assert each[k] == FirstReflection(client, lib, url, params[k], payloads);
    }
    assert ScanSpec(client, lib, url, payloads) == Somes(each);
    assert FindingIndices(client, lib, url, payloads, ScanSpec(client, lib, url, payloads), ks);
  }

  /** The finding of the inner loop is that of a payload that is reflected. */
  lemma FirstReflectionSound(client: HttpClient, lib: UrlLib, url: string, param: string, payloads: seq<string>, r: ScanResult)
    returns (payload: string)
    requires FirstReflection(client, lib, url, param, payloads) == Some(r)
    ensures payload in payloads && Reflects(client, lib, url, param, payload) && r == Finding(lib, url, param, payload)
  {
    FirstReflectionSpec(client, lib, url, param, payloads);
    var i :| 0 <= i < |payloads| && Attempt(client, lib, url, param, payloads[i]) == Some(r);
    payload := payloads[i];
  }

  /** And complete: a parameter on which some payload is reflected gets a finding, for the
      first payload in list order that is reflected on it. */
  lemma ScanComplete(client: HttpClient, lib: UrlLib, url: string, payloads: seq<string>, param: string, payload: string)
    requires param in ParamNames(lib.queryPairs(url)) && payload in payloads
    requires Reflects(client, lib, url, param, payload)
    ensures exists i ::
              && 0 <= i < |payloads| && Reflects(client, lib, url, param, payloads[i])
              && Finding(lib, url, param, payloads[i]) in ScanSpec(client, lib, url, payloads)
              && forall j :: 0 <= j < i ==> !Reflects(client, lib, url, param, payloads[j])
  {
    var i := FirstReflectionComplete(client, lib, url, param, payloads, payload);
    PerParamMember(client, lib, url, payloads, param, Finding(lib, url, param, payloads[i]));
  }

  /** A payload reflected on `param` means the first reflected payload gives its finding. */
  lemma FirstReflectionComplete(client: HttpClient, lib: UrlLib, url: string, param: string, payloads: seq<string>,
                                payload: string) returns (i: nat)
    requires payload in payloads && Reflects(client, lib, url, param, payload)
    ensures i < |payloads| && Reflects(client, lib, url, param, payloads[i])
    ensures FirstReflection(client, lib, url, param, payloads) == Some(Finding(lib, url, param, payloads[i]))
    ensures forall j :: 0 <= j < i ==> !Reflects(client, lib, url, param, payloads[j])
  {
    var each := AttemptEach(client, lib, url, param, payloads);
    FirstSomeSpec(each);
    var n :| 0 <= n < |payloads| && payloads[n] == payload;
    assert each[n].Some?;
    i :| i < |each| && each[i] == FirstSome(each) && forall j :: 0 <= j < i ==> each[j].None?;
    assert each[i] == Attempt(client, lib, url, param, payloads[i]);
    forall j | 0 <= j < i
      ensures !Reflects(client, lib, url, param, payloads[j])
    {
      assert each[j] == Attempt(client, lib, url, param, payloads[j]);
    }
  }

  /** The finding of a probed parameter is among the findings of the scan. */
  lemma PerParamMember(client: HttpClient, lib: UrlLib, url: string, payloads: seq<string>, param: string, found: ScanResult)
    requires param in ParamNames(lib.queryPairs(url))
    requires FirstReflection(client, lib, url, param, payloads) == Some(found)
    ensures found in ScanSpec(client, lib, url, payloads)
  {
    var params := ParamNames(lib.queryPairs(url));
    var each := PerParam(client, lib, url, params, payloads);
    var k :| 0 <= k < |params| && params[k] == param;
    assert each[k] == Some(found);
    SomesHas(each, k);
  }

  class XssScanner {
    const client: HttpClient
    const payloads: seq<string>

    constructor (client: HttpClient)
      ensures this.client == client && payloads == Payloads
    {
      this.client := client;
      payloads := Payloads;
    }

    /** `_change_url_with_payload`. */
    method ChangeUrlWithPayload(url: string, paramName: string, payload: string, lib: UrlLib) returns (changed: string)
      ensures changed == ChangedUrl(lib, url, paramName, payload)
    {
      var queryParams := lib.queryPairs(url);
      var newParams: Pairs := [];
      for i := 0 to |queryParams|
        invariant newParams == ReplaceParam(queryParams[..i], paramName, payload)
      {
        ReplaceParamSnoc(queryParams[..i], queryParams[i], paramName, payload);
        assert queryParams[..i + 1] == queryParams[..i] + [queryParams[i]];
        var (key, value) := queryParams[i];
        if key == paramName {
          newParams := newParams + [(key, payload)];
        } else {
          newParams := newParams + [(key, value)];
        }
      }
      assert queryParams[..|queryParams|] == queryParams;
      changed := lib.withQuery(url, newParams);
    }

    /** The inner loop of `scan` for one parameter: payloads in order; a failed request, a
        non-HTML response or a body without the payload moves on to the next payload, and the
        first payload found in the body is the parameter's finding. */
    method ProbeParam(url: string, param: string, lib: UrlLib) returns (found: Option<ScanResult>)
      ensures found == FirstReflection(client, lib, url, param, payloads)
    {
      ghost var attempts := AttemptEach(client, lib, url, param, payloads);
      for j := 0 to |payloads|
        invariant FirstSome(attempts[j..]) == FirstReflection(client, lib, url, param, payloads)
      {
        assert attempts[j..][1..] == attempts[j + 1..];
        var payload := payloads[j];
        var testUrl := ChangeUrlWithPayload(url, param, payload, lib);
        var resp := client.get(testUrl);
        if resp.None? {
          continue;
        }
        if !IsHtml(resp.value) {
          continue;
        }
        var body := resp.value.text;
        if Contains(body, payload) {
          var detail := "Parameter '" + param + "' appears to be reflected without encoding. Tested payload: " + payload;
          return Some(ScanResult(testUrl, "Reflected XSS (basic)", "HIGH", detail));
        }
      }
      return None;
    }

    /** `scan`: no parameters, no requests; otherwise every parameter in ascending order, one
        finding at most for each. */
    method Scan(url: string, lib: UrlLib) returns (results: seq<ScanResult>)
      ensures results == ScanSpec(client, lib, url, payloads)
    {
      results := [];
      var paramNames := ParamNames(lib.queryPairs(url));
      if paramNames == [] {
        return;
      }
      ghost var each := PerParam(client, lib, url, paramNames, payloads);
      for k := 0 to |paramNames|
        invariant results == Somes(each[..k])
      {
        var found := ProbeParam(url, paramNames[k], lib);
        SomesSnoc(each, k);
        if found.Some? {
          results := results + [found.value];
        }
      }
      assert each[..|paramNames|] == each;
    }
  }

  lemma ReplaceParamSnoc(pairs: Pairs, p: (string, string), param: string, payload: string)
    ensures ReplaceParam(pairs + [p], param, payload)
         == ReplaceParam(pairs, param, payload) + [(p.0, if p.0 == param then payload else p.1)]
  {
    var a := ReplaceParam(pairs + [p], param, payload);
    var b := ReplaceParam(pairs, param, payload) + [(p.0, if p.0 == param then payload else p.1)];
    assert forall i :: 0 <= i < |a| ==> a[i] == b[i];
  }
}
