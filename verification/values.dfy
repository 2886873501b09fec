/** Plain values the client handles: optional results, the parts of a JSON
    document it looks into, binary blobs, and wait durations. */
module Values {

  /** `None` stands for JavaScript's `undefined` result. */
  datatype Option<T> = None | Some(value: T)

  newtype byte = x: int | 0 <= x < 256

  /** An opaque binary payload, as returned by `res.blob()`. */
  datatype Blob = Blob(bytes: seq<byte>)

  /** A parsed JSON document, only as deep as the client reads it:
      objects expose their members; every other value (number, boolean,
      null, array) is known only by its truthiness and by the text a
      template literal renders it as. */
  datatype Json =
    | JObject(members: map<string, Json>)
    | JString(text: string)
    | JOther(truthy: bool, rendered: string)

  /** What a successful API call resolves to. */
  datatype Value = JsonValue(json: Json) | BlobValue(blob: Blob)

  /** JavaScript truthiness of a resolved value. A blob is an object and
      therefore truthy; so is every JSON object. */
  predicate Truthy(v: Value)
    ensures v.BlobValue? || v.json.JObject? ==> Truthy(v)
    ensures v.JsonValue? && v.json.JString? ==> (Truthy(v) <==> |v.json.text| > 0)
  {
    match v
    case BlobValue(_) => true
    case JsonValue(JObject(_)) => true
    case JsonValue(JString(s)) => s != ""
    case JsonValue(JOther(t, _)) => t
  }

  /** Property access `v.name`; `None` is `undefined`. Only JSON objects
      carry the members the client asks for. */
  function Field(v: Value, name: string): (f: Option<Json>)
    ensures f.Some? <==> v.JsonValue? && v.json.JObject? && name in v.json.members
    ensures f.Some? ==> f.value == v.json.members[name]
  {
    match v
    case JsonValue(JObject(m)) => if name in m then Some(m[name]) else None
    case _ => None
  }

  /** The text `${f}` produces inside a template literal. */
  function Render(f: Option<Json>): (s: string)
    ensures f.None? ==> s == "undefined"
    ensures f.Some? && f.value.JString? ==> s == f.value.text
    ensures f.Some? && f.value.JObject? ==> s == "[object Object]"
  {
    match f
    case None => "undefined"
    case Some(JObject(_)) => "[object Object]"
    case Some(JString(s)) => s
    case Some(JOther(_, text)) => text
  }

  /** `s` is `prefix`, then `arg` verbatim, then `suffix`; each part can be
      read back from `s` by position. */
  predicate Framed(s: string, prefix: string, arg: string, suffix: string)
  {
    && |s| == |prefix| + |arg| + |suffix|
    && s[..|prefix|] == prefix
    && s[|prefix|..|s| - |suffix|] == arg
    && s[|s| - |suffix|..] == suffix
  }

  /** A concatenation is framed by its parts. */
  lemma FramedConcat(prefix: string, arg: string, suffix: string)
    ensures Framed(prefix + arg + suffix, prefix, arg, suffix)
  {
    var s := prefix + arg + suffix;
    assert s[..|prefix|] == prefix;
    assert s[|prefix|..|s| - |suffix|] == arg;
    assert s[|s| - |suffix|..] == suffix;
  }

  /** The largest delay Node.js timers accept, 2^31 - 1 ms. */
  const MaxTimerMs: real := 2147483647.0

  /** A wait in milliseconds. `Infinite` is JavaScript's `Infinity`, which
      the spacing formula yields when its denominator is zero. */
  datatype Duration = Ms(ms: real) | Infinite
  {
    /** `this >= other` on the extended reals. */
    predicate AtLeast(other: Duration)
    {
      match (this, other)
      case (Infinite, _) => true
      case (Ms(_), Infinite) => false
      case (Ms(a), Ms(b)) => a >= b
    }

    /** The delay `setTimeout` actually applies in Node.js: a requested
        delay outside 1 to 2147483647 ms (`Infinity`, zero, a negative
        value) fires after 1 ms instead. */
    function TimerMs(): (t: real)
      ensures 1.0 <= t <= MaxTimerMs
      ensures this.Ms? && 1.0 <= this.ms <= MaxTimerMs ==> t == this.ms
      ensures !(this.Ms? && 1.0 <= this.ms <= MaxTimerMs) ==> t == 1.0
    {
      if this.Ms? && 1.0 <= this.ms <= MaxTimerMs then this.ms else 1.0
    }

    /** Adds a whole number of milliseconds (`Infinity + n` stays `Infinity`). */
    function Plus(extra: nat): (d: Duration)
      ensures d.AtLeast(this)
      ensures d.Ms? <==> this.Ms?
      ensures d.Ms? ==> d.ms - this.ms == extra as real
    {
      match this
      case Infinite => Infinite
      case Ms(a) => Ms(a + extra as real)
    }
  }
}
