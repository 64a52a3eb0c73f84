/** Classification of one lookup response and the report entry built for one
    email (mp/app.py, lines 76-129). */
module Exposure {
  import opened Wrappers
  import opened PyText
  import opened Json

  /** A value Python treats as an `int`: `bool` is a subclass of `int`, so
      `isinstance(True, int)` holds and `True` can become the breach count. */
  datatype PyInt = IntVal(i: int) | BoolVal(b: bool)

  /** What `str(n)` / an f-string prints for the count. */
  function Repr(n: PyInt): (r: string)
    ensures r != []
    // an int prints as an optional minus sign and digits, a bool as a word
    ensures n.IntVal? ==> (r[0] == '-' <==> n.i < 0) && forall k | 0 < k < |r| :: IsDigit(r[k])
    ensures n.BoolVal? ==> r[0] != '-' && !IsDigit(r[0])
  {
    match n
    case IntVal(i) => IntToDecimal(i)
    case BoolVal(b) => if b then "True" else "False"
  }

  /** The verdict on a well-formed (object) response. */
  datatype Verdict = NotFound | Found(count: PyInt, sources: Value)

  /** The `found` field, `0` when absent. */
  function FoundField(fields: map<string, Value>): Value {
    Get(fields, "found", Int(0))
  }

  /** The `sources` field, `[]` when absent. */
  function SourcesField(fields: map<string, Value>): Value {
    Get(fields, "sources", List([]))
  }

  /** The message of the `AttributeError` that `data.get(...)` raises when
      the decoded body is not a `dict`. */
  function NoGetMessage(data: Value): string {
    "'" + TypeName(data) + "' object has no attribute 'get'"
  }

  /** The case split on `found` and `sources` (lines 87-114). */
  function Classify(data: Value): (r: Result<Verdict>)
    // only an object has `.get`; anything else raises
    ensures r.Err? <==> !data.Obj?
    ensures r.Err? ==> r.msg == NoGetMessage(data)
    // `found` absent, None, 0 or False means safe, whatever `sources` says
    ensures data.Obj? ==>
      (r.value.NotFound? <==> (FoundField(data.fields).Null? || EqualsZero(FoundField(data.fields))))
    // otherwise the sources are passed on exactly as the service gave them
    ensures data.Obj? && r.value.Found? ==> r.value.sources == SourcesField(data.fields)
    // the count: the length of a list of sources ...
    ensures data.Obj? && r.value.Found? && SourcesField(data.fields).List? ==>
      r.value.count == IntVal(|SourcesField(data.fields).items|)
    // ... else `found` itself when it is an int (True included) ...
    ensures data.Obj? && r.value.Found? && !SourcesField(data.fields).List? ==>
      match FoundField(data.fields)
      case Int(n) => r.value.count == IntVal(n) && n != 0
      case Bool(b) => r.value.count == BoolVal(true)
      // ... else 0
      case _ => r.value.count == IntVal(0)
    // an absent `sources` key reads as `[]`: breached with zero breaches
    ensures data.Obj? && r.value.Found? && "sources" !in data.fields ==>
      r.value.count == IntVal(0) && r.value.sources == List([])
  {
    match data
    case Obj(fields) =>
      var sources := SourcesField(fields);
      var found := FoundField(fields);
      if found.Null? || EqualsZero(found) then
        Ok(NotFound)
      else
        var count :=
          if sources.List? then IntVal(|sources.items|)
          else if found.Int? then IntVal(found.i)
          else if found.Bool? then BoolVal(found.b)
          else IntVal(0);
        Ok(Found(count, sources))
    case _ =>
      Err(NoGetMessage(data))
  }

  /** What one call to the lookup service produced: a decoded body, an
      exception from the `requests` library (transport failure, timeout, or
      a 4xx/5xx status raised by `raise_for_status`), or any other exception
      while reading the body (such as a body that is not JSON). */
  datatype LookupOutcome =
    | Response(body: Value)
    | RequestFailure(detail: string)
    | DecodeFailure(detail: string)

  /** The `status` shown for one email. */
  datatype Status =
    | Safe
    | Breached(count: PyInt)
    | ApiError(detail: string)
    | ProcessingError(detail: string)

  predicate IsError(s: Status) {
    s.ApiError? || s.ProcessingError?
  }

  /** One record appended to `results` (lines 116-129); the icon and the
      style class are functions of the status. */
  datatype Entry = Entry(email: string, status: Status, breaches: Value)

  /** The record the handler appends for `email` once the lookup is over,
      whatever happened: it never raises. */
  function EntryFor(email: string, outcome: LookupOutcome): (e: Entry)
    ensures e.email == email
    // a `requests` exception is an API error carrying its message
    ensures e.status.ApiError? <==> outcome.RequestFailure?
    ensures outcome.RequestFailure? ==> e.status == ApiError(outcome.detail)
    // any other exception is a processing error carrying its message
    ensures e.status.ProcessingError? <==>
      (outcome.DecodeFailure? || (outcome.Response? && !outcome.body.Obj?))
    ensures outcome.DecodeFailure? ==> e.status == ProcessingError(outcome.detail)
    ensures outcome.Response? && !outcome.body.Obj? ==>
      e.status == ProcessingError(NoGetMessage(outcome.body))
    // errors and "safe" carry no breaches
    ensures IsError(e.status) || e.status.Safe? ==> e.breaches == List([])
    // a decoded object is reported as the classifier decides
    ensures outcome.Response? && outcome.body.Obj? ==>
      match Classify(outcome.body).value
      case NotFound => e.status == Safe
      case Found(n, sources) => e.status == Breached(n) && e.breaches == sources
  {
    match outcome
    case RequestFailure(detail) => Entry(email, ApiError(detail), List([]))
    case DecodeFailure(detail) => Entry(email, ProcessingError(detail), List([]))
    case Response(body) =>
      match Classify(body)
      case Err(msg) => Entry(email, ProcessingError(msg), List([]))
      case Ok(NotFound) => Entry(email, Safe, List([]))
      case Ok(Found(n, sources)) => Entry(email, Breached(n), sources)
  }

  const SafeText := "Safe \U{2014} No breaches found!"
  const BreachedPrefix := "Breached \U{2014} "
  const BreachedSuffix := " breach(es)"
  const ApiErrorPrefix := "API Error: "
  const ProcessingErrorPrefix := "Processing Error: "

  /** The `status` string the page shows. */
  function StatusText(s: Status): (t: string)
    // the first character tells the four kinds of status apart
    ensures t != []
    ensures t[0] == 'S' <==> s.Safe?
    ensures t[0] == 'B' <==> s.Breached?
    ensures t[0] == 'A' <==> s.ApiError?
    ensures t[0] == 'P' <==> s.ProcessingError?
    // an error status carries the exception's message at its end
    ensures s.ApiError? ==> EndsWith(t, s.detail)
    ensures s.ProcessingError? ==> EndsWith(t, s.detail)
  {
    match s
    case Safe => SafeText
    case Breached(n) => BreachedPrefix + Repr(n) + BreachedSuffix
    case ApiError(d) => ApiErrorPrefix + d
    case ProcessingError(d) => ProcessingErrorPrefix + d
  }

  /** The `status_icon` string. */
  function Icon(s: Status): (i: string)
    ensures i == "\U{26A0}\U{FE0F}" <==> IsError(s)
    ensures i == "\U{2705}" <==> s.Safe?
    ensures i == "\U{274C}" <==> s.Breached?
  {
    match s
    case Safe => "\U{2705}"
    case Breached(_) => "\U{274C}"
    case _ => "\U{26A0}\U{FE0F}"
  }

  /** The `status_class` string: green for safe, red for breached, yellow
      for both kinds of error. */
  function StyleClass(s: Status): (c: string)
    ensures c == "bg-yellow-500" <==> IsError(s)
    ensures c == "bg-green-500" <==> s.Safe?
    ensures c == "bg-red-500" <==> s.Breached?
  {
    match s
    case Safe => "bg-green-500"
    case Breached(_) => "bg-red-500"
    case _ => "bg-yellow-500"
  }

  /** Two counts print the same only when they are the same Python value. */
  lemma ReprInjective(m: PyInt, n: PyInt)
    requires Repr(m) == Repr(n)
    ensures m == n
  {
    var s := Repr(m);
    assert m.IntVal? ==> s[0] == '-' || IsDigit(s[0]);
    assert n.IntVal? ==> s[0] == '-' || IsDigit(s[0]);
    if m.IntVal? && n.IntVal? {
      IntToDecimalInjective(m.i, n.i);
    }
  }

  /** The status string determines the status: a reader of the page never
      confuses an API outage, a processing error, a clean email and a
      breached one, nor two different counts or messages. */
  lemma StatusTextInjective(s: Status, t: Status)
    requires StatusText(s) == StatusText(t)
    ensures s == t
  {
    var x := StatusText(s);
    assert x[0] == StatusText(t)[0];
    match s
    case Safe =>
    case Breached(m) =>
      var n := t.count;
      var k := |BreachedPrefix|;
      assert x[k..|x| - |BreachedSuffix|] == Repr(m);
      assert StatusText(t)[k..|x| - |BreachedSuffix|] == Repr(n);
      ReprInjective(m, n);
    case ApiError(d) =>
      assert x[|ApiErrorPrefix|..] == d;
      assert StatusText(t)[|ApiErrorPrefix|..] == t.detail;
    case ProcessingError(d) =>
      assert x[|ProcessingErrorPrefix|..] == d;
      assert StatusText(t)[|ProcessingErrorPrefix|..] == t.detail;
  }
}
