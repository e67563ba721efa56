/** scanners/base.py: the finding every scanner reports. */
module ScanBase {
  import opened Strings

  /** A finding: where, what, how bad, and a human-readable detail. The constructor stores the
      four strings as given. */
  datatype ScanResult = ScanResult(url: string, vulnName: string, severity: string, detail: string)

  /** `to_dict`: the record as a dictionary with exactly four keys; `vulnerability` carries the
      vulnerability name and every other key the field of the same name. */
  function ToDict(r: ScanResult): (d: map<string, string>)
    ensures d.Keys == {"url", "vulnerability", "severity", "detail"}
    ensures d["url"] == r.url && d["vulnerability"] == r.vulnName
    ensures d["severity"] == r.severity && d["detail"] == r.detail
  {
    map["url" := r.url, "vulnerability" := r.vulnName, "severity" := r.severity, "detail" := r.detail]
  }

  /** The dictionary loses nothing: two results with the same dictionary are the same result. */
  lemma ToDictInjective(a: ScanResult, b: ScanResult)
    requires ToDict(a) == ToDict(b)
    ensures a == b
  {
    assert a.url == ToDict(a)["url"] == ToDict(b)["url"] == b.url;
    assert a.vulnName == ToDict(a)["vulnerability"] == ToDict(b)["vulnerability"] == b.vulnName;
    assert a.severity == ToDict(a)["severity"] == ToDict(b)["severity"] == b.severity;
    assert a.detail == ToDict(a)["detail"] == ToDict(b)["detail"] == b.detail;
  }

  /** `__str__`: `[severity] name at url – detail`, with an en dash (U+2013) before the detail. */
  function ToString(r: ScanResult): (s: string)
    ensures "[" + r.severity + "] " <= s
    ensures |s| == |r.severity| + |r.vulnName| + |r.url| + |r.detail| + 10
    ensures s[|s| - |r.detail|..] == r.detail
  {
    "[" + r.severity + "] " + r.vulnName + " at " + r.url + " \U{2013} " + r.detail
  }

  /** The severity can be read back from the rendered line whenever it contains no ']'. */
  lemma SeverityReadBack(r: ScanResult)
    requires ']' !in r.severity
    ensures BeforeFirst(ToString(r)[1..], ']') == r.severity
  {
    var s := ToString(r);
    var rest := s[1..];
    assert rest == r.severity + ("] " + r.vulnName + " at " + r.url + " \U{2013} " + r.detail);
    BeforeFirstAppend(r.severity, "] " + r.vulnName + " at " + r.url + " \U{2013} " + r.detail, ']');
  }
}
