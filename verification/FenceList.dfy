// The fenced-instances annotation: a JSON array of pod names (sections 5 and 7 of RFC 8259),
// written by an encoder and read back by a hand-written scanner.
module FenceList {
  import opened Options

  /** A name the encoder writes without escapes: no control character, quote, backslash, and
      none of the characters it escapes for HTML. Kubernetes object names are all plain. */
  predicate Plain(name: string) {
    forall i :: 0 <= i < |name| ==>
      name[i] >= ' ' && name[i] != '"' && name[i] != '\\' && name[i] != '<' && name[i] != '>' && name[i] != '&'
  }

  predicate AllPlain(names: seq<string>) {
    forall i :: 0 <= i < |names| ==> Plain(names[i])
  }

  /** A JSON array of plain strings. */
  function Encode(names: seq<string>): string {
    "[" + Elements(names) + "]"
  }

  function Elements(names: seq<string>): string {
    if names == [] then ""
    else if |names| == 1 then "\"" + names[0] + "\""
    else "\"" + names[0] + "\"," + Elements(names[1..])
  }

  /** The scanner's state machine, one character at a time. */
  datatype Scan = Scan(inQuote: bool, current: string, result: seq<string>)

  function Next(st: Scan, c: char): Scan {
    if c == '"' && !st.inQuote then st.(inQuote := true, current := "")
    else if c == '"' then st.(inQuote := false, result := st.result + [st.current])
    else if st.inQuote then st.(current := st.current + [c])
    else st
  }

  function ScanAll(st: Scan, s: string): Scan {
    if s == "" then st else Next(ScanAll(st, s[..|s| - 1]), s[|s| - 1])
  }

  const START: Scan := Scan(false, "", [])

  method ParseJSONStringArray(s: string) returns (result: seq<string>)
    ensures result == ScanAll(START, s).result
  {
    result := [];
    var inQuote := false;
    var current := "";
    for i := 0 to |s|
      invariant ScanAll(START, s[..i]) == Scan(inQuote, current, result)
    {
      assert s[..i + 1][..i] == s[..i];
      var c := s[i];
      if c == '"' && !inQuote {
        inQuote := true;
        current := "";
      } else if c == '"' && inQuote {
        inQuote := false;
        result := result + [current];
      } else if inQuote {
        current := current + [c];
      }
    }
    assert s[..|s|] == s;
  }

  method ParseFencedInstances(annotation: Option<string>) returns (result: seq<string>)
    ensures result == Fenced(annotation)
  {
    if annotation.None? { return []; }
    if annotation.value == "" || annotation.value == "[]" { return []; }
    result := ParseJSONStringArray(annotation.value);
  }

  /** The instances an annotation fences. */
  function Fenced(annotation: Option<string>): seq<string> {
    match annotation
    case None => []
    case Some(s) => if s == "" || s == "[]" then [] else ScanAll(START, s).result
  }

  lemma {:induction false} ScanConcat(st: Scan, s: string, t: string)
    ensures ScanAll(st, s + t) == ScanAll(ScanAll(st, s), t)
  {
    if t == "" {
      assert s + t == s;
    } else {
      ScanConcat(st, s, t[..|t| - 1]);
      assert (s + t)[..|s + t| - 1] == s + t[..|t| - 1];
    }
  }

  lemma {:induction false} ScanName(st: Scan, name: string)
    requires st.inQuote && Plain(name)
    ensures ScanAll(st, name) == st.(current := st.current + name)
  {
    if name == "" {
      assert st.current + name == st.current;
    } else {
      ScanName(st, name[..|name| - 1]);
      assert st.current + name == st.current + name[..|name| - 1] + [name[|name| - 1]];
    }
  }

  lemma ScanOne(st: Scan, c: char)
    ensures ScanAll(st, [c]) == Next(st, c)
  {
    assert [c][..0] == "";
  }

  lemma ScanQuoted(st: Scan, name: string)
    requires !st.inQuote && Plain(name)
    ensures ScanAll(st, "\"" + name + "\"") == Scan(false, name, st.result + [name])
  {
    ScanConcat(st, "\"" + name, "\"");
    ScanConcat(st, "\"", name);
    ScanOne(st, '"');
    ScanName(Next(st, '"'), name);
    assert "" + name == name;
    ScanOne(ScanAll(st, "\"" + name), '"');
  }

  lemma ScanQuotedComma(st: Scan, name: string)
    requires !st.inQuote && Plain(name)
    ensures ScanAll(st, "\"" + name + "\",") == Scan(false, name, st.result + [name])
  {
    ScanQuoted(st, name);
    ScanConcat(st, "\"" + name + "\"", ",");
    ScanOne(Scan(false, name, st.result + [name]), ',');
    assert "\"" + name + "\"," == ("\"" + name + "\"") + ",";
  }

  lemma {:induction false} ScanElements(st: Scan, names: seq<string>)
    requires !st.inQuote && AllPlain(names)
    ensures !ScanAll(st, Elements(names)).inQuote
    ensures ScanAll(st, Elements(names)).result == st.result + names
    decreases |names|
  {
    if |names| == 1 {
      ScanQuoted(st, names[0]);
      assert names == [names[0]];
    } else if names != [] {
      var head := "\"" + names[0] + "\",";
      ScanQuotedComma(st, names[0]);
      ScanElements(ScanAll(st, head), names[1..]);
      ScanConcat(st, head, Elements(names[1..]));
      assert st.result + [names[0]] + names[1..] == st.result + names;
    }
  }

  /** What is encoded is read back, name for name and in order. */
  lemma FencesRoundTrip(names: seq<string>)
    requires AllPlain(names)
    ensures Fenced(Some(Encode(names))) == names
  {
    ScanConcat(START, "[" + Elements(names), "]");
    ScanConcat(START, "[", Elements(names));
    ScanOne(START, '[');
    ScanElements(START, names);
    ScanOne(ScanAll(START, "[" + Elements(names)), ']');
    assert [] + names == names;
    if names == [] { assert Encode(names) == "[]"; }
  }

  // ----- the two updates -----

  function Without(names: seq<string>, pod: string): (r: seq<string>)
    ensures pod !in r && forall p :: p != pod ==> (p in r <==> p in names)
    ensures AllPlain(names) ==> AllPlain(r)
    ensures pod !in names ==> r == names
  {
    if names == [] then []
    else
      var init, last := names[..|names| - 1], names[|names| - 1];
      assert names == init + [last];
      Without(init, pod) + if last == pod then [] else [last]
  }

  /** The annotation Fence leaves. */
  function FenceAnnotation(annotation: Option<string>, pod: string): Option<string> {
    if pod in Fenced(annotation) then annotation else Some(Encode(Fenced(annotation) + [pod]))
  }

  /** The annotation Unfence leaves: dropped when nobody remains fenced. */
  function UnfenceAnnotation(annotation: Option<string>, pod: string): Option<string> {
    var remaining := Without(Fenced(annotation), pod);
    if remaining == [] then None else Some(Encode(remaining))
  }

  /** Fencing adds the pod and unfencing removes it; every other pod keeps its fence. */
  lemma FencingIsLocal(annotation: Option<string>, pod: string)
    requires Plain(pod) && AllPlain(Fenced(annotation))
    ensures Fenced(FenceAnnotation(annotation, pod)) ==
            if pod in Fenced(annotation) then Fenced(annotation) else Fenced(annotation) + [pod]
    ensures Fenced(UnfenceAnnotation(annotation, pod)) == Without(Fenced(annotation), pod)
  {
    if pod !in Fenced(annotation) { FencesRoundTrip(Fenced(annotation) + [pod]); }
    FencesRoundTrip(Without(Fenced(annotation), pod));
  }

  /** A full fence and unfence of a pod that was not fenced leaves the fences as they were. */
  lemma UnfenceUndoesFence(annotation: Option<string>, pod: string)
    requires Plain(pod) && AllPlain(Fenced(annotation)) && pod !in Fenced(annotation)
    ensures Fenced(UnfenceAnnotation(FenceAnnotation(annotation, pod), pod)) == Fenced(annotation)
  {
    FencingIsLocal(annotation, pod);
    assert AllPlain(Fenced(annotation) + [pod]);
    FencingIsLocal(FenceAnnotation(annotation, pod), pod);
    assert (Fenced(annotation) + [pod])[..|Fenced(annotation)|] == Fenced(annotation);
  }
}
