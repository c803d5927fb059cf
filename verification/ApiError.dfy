/**
 How client/apierror/apierror.go turns an HTTP response into an API error: which of the many
 places in a nested payload provides the code, the category, the message and the request id.

 The JSON text is parsed elsewhere; a number is kept as the decimal text `strconv.FormatFloat`
 prints for it. The tables that read a code or a category from its text, and
 `http.StatusText`, are parameters.
 */
module ApiError {
  import opened Basics
  import opened Strings
  import opened ErrorContract

  // ---------- payloads ----------

  datatype Json =
    | Null
    | Bool(b: bool)
    | Number(decimal: string)
    | Text(s: string)
    | Array(items: seq<Json>)
    | Object(fields: map<string, Json>)

  /** A missing key reads as null. */
  function Field(payload: Json, key: string): Json
    requires payload.Object?
  {
    if key in payload.fields then payload.fields[key] else Null
  }

  // ---------- numbers ----------

  predicate IsDigit(c: char) {
    '0' <= c <= '9'
  }

  function Digits(s: string): Option<nat> {
    if s == "" then Some(0)
    else
      var last := s[|s| - 1];
      match Digits(s[..|s| - 1])
      case Some(n) => if IsDigit(last) then Some(10 * n + (last as int - '0' as int)) else None
      case None => None
  }

  /** `strconv.ParseInt(s, 10, 64)` and, on a 64-bit machine, `strconv.Atoi(s)`. */
  function ParseInt(s: string): (r: Option<int>)
    ensures r.Some? ==> -0x8000_0000_0000_0000 <= r.value < 0x8000_0000_0000_0000
  {
    var negative, body := s != "" && s[0] == '-', if s != "" && (s[0] == '-' || s[0] == '+') then s[1..] else s;
    if body == "" then None
    else
      match Digits(body)
      case None => None
      case Some(n) =>
        var magnitude: int := n;
        var value := if negative then -magnitude else magnitude;
        if -0x8000_0000_0000_0000 <= value < 0x8000_0000_0000_0000 then Some(value) else None
  }

  lemma {:induction false} DigitsOnly(s: string)
    ensures Digits(s).Some? <==> forall i :: 0 <= i < |s| ==> IsDigit(s[i])
  {
    if s != "" {
      DigitsOnly(s[..|s| - 1]);
    }
  }

  /** A sign changes the sign of the number, and nothing but digits may follow it. */
  lemma SignedNumbers(s: string)
    requires s != "" && IsDigit(s[0])
    ensures ParseInt("+" + s) == ParseInt(s)
    ensures ParseInt(s).Some? ==> ParseInt("-" + s) == Some(-ParseInt(s).value) && ParseInt(s).value >= 0
    ensures ParseInt(s).Some? ==> forall i :: 0 <= i < |s| ==> IsDigit(s[i])
  {
    assert ("+" + s)[1..] == s && ("-" + s)[1..] == s;
    DigitsOnly(s);
  }

  /** A status is read as the number it is written as. */
  lemma StatusText(hundreds: char, tens: char, units: char)
    requires IsDigit(hundreds) && IsDigit(tens) && IsDigit(units)
    ensures ParseInt([hundreds, tens, units]) ==
            Some(100 * (hundreds as int - '0' as int) + 10 * (tens as int - '0' as int) + (units as int - '0' as int))
  {
    var s := [hundreds, tens, units];
    assert s[..2] == [hundreds, tens] && [hundreds, tens][..1] == [hundreds] && [hundreds][..0] == "";
    assert Digits("") == Some(0);
    assert Digits([hundreds]) == Some(hundreds as int - '0' as int);
    assert Digits([hundreds, tens]) == Some(10 * (hundreds as int - '0' as int) + (tens as int - '0' as int));
  }

  predicate IsNumeric(s: string) {
    ParseInt(s).Some?
  }

  /** Text is trimmed, whole numbers are printed, everything else is nothing. */
  function ValueString(v: Json): string {
    match v
    case Text(s) => TrimSpace(s)
    case Number(decimal) => if IsNumeric(decimal) then decimal else ""
    case _ => ""
  }

  function FirstNonEmpty(values: seq<string>): string {
    if values == [] then ""
    else if TrimSpace(values[0]) != "" then TrimSpace(values[0])
    else FirstNonEmpty(values[1..])
  }

  lemma {:induction false} FirstNonEmptyConcat(a: seq<string>, b: seq<string>)
    ensures FirstNonEmpty(a + b) == if FirstNonEmpty(a) != "" then FirstNonEmpty(a) else FirstNonEmpty(b)
  {
    if a == [] {
      assert a + b == b;
    } else {
      assert (a + b)[1..] == a[1..] + b;
      FirstNonEmptyConcat(a[1..], b);
    }
  }

  lemma {:induction false} FirstNonEmptyTrimmed(a: seq<string>)
    ensures Trimmed(FirstNonEmpty(a), IsSpace)
  {
    if a != [] {
      FirstNonEmptyTrimmed(a[1..]);
      var _, _ := TrimParts(a[0], IsSpace);
    }
  }

  /** The list may be cut anywhere and its front replaced by what it yields. */
  lemma FirstNonEmptyFolds(a: seq<string>, b: seq<string>)
    ensures FirstNonEmpty([FirstNonEmpty(a)] + b) == FirstNonEmpty(a + b)
  {
    FirstNonEmptyConcat(a, b);
    FirstNonEmptyTrimmed(a);
    TrimIdempotent(FirstNonEmpty(a), IsSpace);
    assert ([FirstNonEmpty(a)] + b)[1..] == b;
    TrimOfTrimmed("", IsSpace);
    TrimOfTrimmed(FirstNonEmpty(a), IsSpace);
  }

  /** It is the first value with something besides space in it. */
  lemma {:induction false} FirstNonEmptyAt(values: seq<string>) returns (k: nat)
    ensures k <= |values|
    ensures forall i :: 0 <= i < k ==> TrimSpace(values[i]) == ""
    ensures if k < |values| then TrimSpace(values[k]) != "" && FirstNonEmpty(values) == TrimSpace(values[k])
            else FirstNonEmpty(values) == ""
  {
    if values == [] || TrimSpace(values[0]) != "" {
      k := 0;
    } else {
      var j := FirstNonEmptyAt(values[1..]);
      k := j + 1;
      forall i | 0 <= i < k
        ensures TrimSpace(values[i]) == ""
      {
        assert i > 0 ==> values[i] == values[1..][i - 1];
      }
      assert k < |values| ==> values[k] == values[1..][j];
    }
  }

  // ---------- levels ----------

  function Nested(payload: Json): Json
    requires payload.Object?
  {
    Field(payload, "error")
  }

  /** The payload and the objects nested in it under `error`, outermost first. */
  function Levels(payload: Json): (r: seq<Json>)
    requires payload.Object?
    ensures forall i :: 0 <= i < |r| ==> r[i].Object?
    ensures |r| >= 1 && r[0] == payload
    decreases payload
  {
    [payload] + if Nested(payload).Object? then Levels(Nested(payload)) else []
  }

  function At(level: Json, keys: seq<string>): (r: seq<string>)
    requires level.Object?
    ensures |r| == |keys|
    ensures forall i :: 0 <= i < |keys| ==> r[i] == ValueString(Field(level, keys[i]))
  {
    seq(|keys|, i requires 0 <= i < |keys| => ValueString(Field(level, keys[i])))
  }

  /** The values under the given keys at every level, level by level. */
  function Under(levels: seq<Json>, keys: seq<string>): seq<string>
    requires forall i :: 0 <= i < |levels| ==> levels[i].Object?
  {
    if levels == [] then [] else At(levels[0], keys) + Under(levels[1..], keys)
  }

  /** The text under `error` where the nesting ends, empty if there is none. */
  function ErrorText(payload: Json): string
    requires payload.Object?
    decreases payload
  {
    if Nested(payload).Object? then ErrorText(Nested(payload)) else ValueString(Nested(payload))
  }

  // ---------- the code ----------

  const CODE_KEYS := ["error_code", "code", "type"]

  /** Every text or whole number under a code key, in the order of depth and key. */
  function CodeCandidates(payload: Json): seq<string>
    requires payload.Object?
  {
    Under(Levels(payload), CODE_KEYS)
  }

  /** The first candidate that is not a number. */
  function FirstWord(candidates: seq<string>): string {
    if candidates == [] then ""
    else if candidates[0] != "" && !IsNumeric(candidates[0]) then candidates[0]
    else FirstWord(candidates[1..])
  }

  /** The code of the status that a number stands for. */
  function NumberCode(s: string): (code: ErrorCode)
    requires IsNumeric(s)
    ensures code != NoCode
  {
    CodeForStatus(ParseInt(s).value)
  }

  /** The code of the first candidate that is a number. */
  function FirstNumber(candidates: seq<string>): ErrorCode {
    if candidates == [] then NoCode
    else if candidates[0] != "" && IsNumeric(candidates[0]) then NumberCode(candidates[0])
    else FirstNumber(candidates[1..])
  }

  lemma {:induction false} FirstWordConcat(a: seq<string>, b: seq<string>)
    ensures FirstWord(a + b) == if FirstWord(a) != "" then FirstWord(a) else FirstWord(b)
  {
    if a == [] {
      assert a + b == b;
    } else {
      assert (a + b)[1..] == a[1..] + b;
      FirstWordConcat(a[1..], b);
    }
  }

  lemma {:induction false} FirstNumberConcat(a: seq<string>, b: seq<string>)
    ensures FirstNumber(a + b) == if FirstNumber(a) != NoCode then FirstNumber(a) else FirstNumber(b)
  {
    if a == [] {
      assert a + b == b;
    } else {
      assert (a + b)[1..] == a[1..] + b;
      FirstNumberConcat(a[1..], b);
    }
  }

  /** The loop over the keys of one level; a word ends it. */
  method ScanLevel(level: Json, keys: seq<string>) returns (word: string, number: ErrorCode)
    requires level.Object?
    ensures word == FirstWord(At(level, keys))
    ensures word == "" ==> number == FirstNumber(At(level, keys))
  {
    number := NoCode;
    ghost var here := At(level, keys);
    for k := 0 to |keys|
      invariant FirstWord(here) == FirstWord(here[k..])
      invariant FirstNumber(here) == if number != NoCode then number else FirstNumber(here[k..])
    {
      assert here[k..][1..] == here[k + 1..];
      var raw := ValueString(Field(level, keys[k]));
      if raw == "" {
        continue;
      }
      if IsNumeric(raw) {
        if number == NoCode {
          number := NumberCode(raw);
        }
        continue;
      }
      return raw, number;
    }
    word := "";
  }

  lemma UnderSplits(payload: Json, keys: seq<string>)
    requires payload.Object?
    ensures Under(Levels(payload), keys) ==
            At(payload, keys) + if Nested(payload).Object? then Under(Levels(Nested(payload)), keys) else []
  {
    assert Levels(payload)[1..] == if Nested(payload).Object? then Levels(Nested(payload)) else [];
    assert Nested(payload).Object? || Under([], keys) == [];
  }

  /** The scan of one payload: its word if it has one at any depth, else its first number. */
  method ScanErrorCodes(payload: Json) returns (word: string, number: ErrorCode)
    requires payload.Object?
    ensures word == FirstWord(CodeCandidates(payload))
    ensures word == "" ==> number == FirstNumber(CodeCandidates(payload))
    decreases payload
  {
    ghost var here := At(payload, CODE_KEYS);
    ghost var below := if Nested(payload).Object? then Under(Levels(Nested(payload)), CODE_KEYS) else [];
    UnderSplits(payload, CODE_KEYS);
    FirstWordConcat(here, below);
    FirstNumberConcat(here, below);
    word, number := ScanLevel(payload, CODE_KEYS);
    if word != "" {
      return;
    }
    var nested := Nested(payload);
    if nested.Object? {
      var nestedWord, nestedNumber := ScanErrorCodes(nested);
      if nestedWord != "" {
        return nestedWord, number;
      }
      if number == NoCode {
        number := nestedNumber;
      }
    }
  }

  /** Reading codes and categories from their wire texts. */
  datatype Names = Names(code: string -> ErrorCode, category: string -> ErrorCategory)

  /** Only the empty text means nothing. */
  ghost predicate Faithful(names: Names) {
    && (forall s :: names.code(s) == NoCode <==> s == "")
    && (forall s :: names.category(s) == NoCategory <==> s == "")
  }

  /** The code a payload of any depth stands for. */
  function PayloadCode(names: Names, payload: Json): ErrorCode
    requires payload.Object?
  {
    var candidates := CodeCandidates(payload);
    if FirstWord(candidates) != "" then names.code(FirstWord(candidates)) else FirstNumber(candidates)
  }

  method FirstErrorCode(names: Names, payload: Json) returns (code: ErrorCode)
    requires payload.Object?
    ensures code == PayloadCode(names, payload)
  {
    var word, number := ScanErrorCodes(payload);
    if word != "" {
      return names.code(word);
    }
    return number;
  }

  /** Which candidate decides: the first word, or the first number if there is no word. */
  lemma {:induction false} DecidingCandidate(candidates: seq<string>) returns (k: nat)
    ensures k <= |candidates|
    ensures k == |candidates| ==>
              FirstWord(candidates) == "" && FirstNumber(candidates) == NoCode && forall i :: 0 <= i < k ==> candidates[i] == ""
    ensures k < |candidates| ==> candidates[k] != ""
    ensures k < |candidates| && FirstWord(candidates) != "" ==>
              && candidates[k] == FirstWord(candidates) && !IsNumeric(candidates[k])
              && forall i :: 0 <= i < k ==> candidates[i] == "" || IsNumeric(candidates[i])
    ensures k < |candidates| && FirstWord(candidates) == "" ==>
              && candidates[k] != "" && IsNumeric(candidates[k])
              && FirstNumber(candidates) == NumberCode(candidates[k])
              && (forall i :: 0 <= i < k ==> candidates[i] == "")
              && (forall i :: 0 <= i < |candidates| ==> candidates[i] == "" || IsNumeric(candidates[i]))
  {
    if candidates == [] {
      k := 0;
    } else {
      var rest := candidates[1..];
      var j := DecidingCandidate(rest);
      assert forall i :: 1 <= i < |candidates| ==> candidates[i] == rest[i - 1];
      if candidates[0] != "" && !IsNumeric(candidates[0]) {
        k := 0;
      } else if FirstWord(rest) != "" || candidates[0] == "" {
        k := j + 1;
      } else {
        k := 0;
        assert forall i :: 0 <= i < |rest| ==> rest[i] == "" || IsNumeric(rest[i]);
      }
    }
  }

  /** The k-th candidate is a word, and no word comes before it. */
  ghost predicate DecidingWord(candidates: seq<string>, k: nat) {
    && k < |candidates| && candidates[k] != "" && ParseInt(candidates[k]).None?
    && forall i :: 0 <= i < k ==> candidates[i] == "" || ParseInt(candidates[i]).Some?
  }

  /** The k-th candidate is a number, nothing comes before it, and no candidate at all is a word. */
  ghost predicate DecidingNumber(candidates: seq<string>, k: nat) {
    && k < |candidates| && candidates[k] != "" && ParseInt(candidates[k]).Some?
    && (forall i :: 0 <= i < k ==> candidates[i] == "")
    && (forall i :: 0 <= i < |candidates| ==> candidates[i] == "" || ParseInt(candidates[i]).Some?)
  }

  ghost predicate NoCandidate(candidates: seq<string>) {
    forall x :: x in candidates ==> x == ""
  }

  /** Exactly one of the three holds, and it says which code a list of candidates stands for. */
  lemma {:induction false} Decides(candidates: seq<string>)
    ensures forall k: nat :: DecidingWord(candidates, k) ==> FirstWord(candidates) == candidates[k]
    ensures forall k: nat :: DecidingNumber(candidates, k) ==>
              FirstWord(candidates) == "" && FirstNumber(candidates) == CodeForStatus(ParseInt(candidates[k]).value)
    ensures NoCandidate(candidates) ==> FirstWord(candidates) == "" && FirstNumber(candidates) == NoCode
    ensures NoCandidate(candidates)
            || (exists k: nat :: DecidingWord(candidates, k)) || (exists k: nat :: DecidingNumber(candidates, k))
  {
    var j := DecidingCandidate(candidates);
    if j < |candidates| {
      assert candidates[j] in candidates;
      if FirstWord(candidates) != "" {
        assert DecidingWord(candidates, j);
      } else {
        assert DecidingNumber(candidates, j);
      }
    }
    forall k: nat | DecidingWord(candidates, k)
      ensures FirstWord(candidates) == candidates[k]
    {
      assert j < |candidates| && (k < j || j < k || k == j);
    }
    forall k: nat | DecidingNumber(candidates, k)
      ensures FirstWord(candidates) == "" && FirstNumber(candidates) == CodeForStatus(ParseInt(candidates[k]).value)
    {
      assert j < |candidates| && (k < j || j < k || k == j);
    }
  }

  // ---------- where candidates come from, letter by letter ----------

  const CATEGORY_KEYS := ["category", "error_category"]
  const MESSAGE_KEYS := ["message", "msg"]
  const REQUEST_ID_KEYS := ["request_id", "requestId"]

  /** What a payload contributes to one field: the candidates in order of precedence. */
  function Candidates(payload: Option<Json>, keys: seq<string>): seq<string>
    requires payload.Some? ==> payload.value.Object?
  {
    if payload.Some? then Under(Levels(payload.value), keys) else []
  }

  function MessageCandidates(payload: Option<Json>): seq<string>
    requires payload.Some? ==> payload.value.Object?
  {
    if payload.Some? then Under(Levels(payload.value), MESSAGE_KEYS) + [ErrorText(payload.value)] else []
  }

  /** The value of a key, as text. */
  function TextAt(payload: Json, key: string): string
    requires payload.Object?
  {
    if key in payload.fields then ValueString(payload.fields[key]) else ""
  }

  /** Text counts trimmed, a number if it is whole, and nothing else counts. */
  lemma ValueTexts(v: Json)
    ensures v.Text? ==> ValueString(v) == TrimSpace(v.s)
    ensures v.Number? ==> ValueString(v) == if ParseInt(v.decimal).Some? then v.decimal else ""
    ensures !v.Text? && !v.Number? ==> ValueString(v) == ""
  {
  }

  /** The object nested under `error`, if there is one. */
  function Inner(payload: Json): Option<Json>
    requires payload.Object?
  {
    if "error" in payload.fields && payload.fields["error"].Object? then Some(payload.fields["error"]) else None
  }

  lemma LevelsUnfold(payload: Json, keys: seq<string>)
    requires payload.Object?
    ensures Under(Levels(payload), keys) ==
            At(payload, keys) + match Inner(payload) case Some(inner) => Under(Levels(inner), keys) case None => []
  {
    UnderSplits(payload, keys);
  }

  lemma AtTwo(payload: Json, a: string, b: string)
    requires payload.Object?
    ensures At(payload, [a, b]) == [TextAt(payload, a), TextAt(payload, b)]
  {
  }

  /** Which keys name a code, and in which order, at a level and then below it. */
  lemma CodeKeyOrder(payload: Json)
    requires payload.Object?
    ensures CodeCandidates(payload) == [TextAt(payload, "error_code"), TextAt(payload, "code"), TextAt(payload, "type")] +
            match Inner(payload) case Some(inner) => CodeCandidates(inner) case None => []
  {
    LevelsUnfold(payload, CODE_KEYS);
    assert At(payload, CODE_KEYS) == [TextAt(payload, "error_code"), TextAt(payload, "code"), TextAt(payload, "type")];
  }

  lemma CategoryKeyOrder(payload: Json)
    requires payload.Object?
    ensures Under(Levels(payload), CATEGORY_KEYS) == [TextAt(payload, "category"), TextAt(payload, "error_category")] +
            match Inner(payload) case Some(inner) => Under(Levels(inner), CATEGORY_KEYS) case None => []
  {
    LevelsUnfold(payload, CATEGORY_KEYS);
    AtTwo(payload, "category", "error_category");
  }

  lemma RequestIdKeyOrder(payload: Json)
    requires payload.Object?
    ensures Under(Levels(payload), REQUEST_ID_KEYS) == [TextAt(payload, "request_id"), TextAt(payload, "requestId")] +
            match Inner(payload) case Some(inner) => Under(Levels(inner), REQUEST_ID_KEYS) case None => []
  {
    LevelsUnfold(payload, REQUEST_ID_KEYS);
    AtTwo(payload, "request_id", "requestId");
  }

  /** For the message the text under the innermost `error` comes last. */
  lemma MessageKeyOrder(payload: Json)
    requires payload.Object?
    ensures MessageCandidates(Some(payload)) == [TextAt(payload, "message"), TextAt(payload, "msg")] +
            match Inner(payload) case Some(inner) => MessageCandidates(Some(inner)) case None => [TextAt(payload, "error")]
  {
    LevelsUnfold(payload, MESSAGE_KEYS);
    AtTwo(payload, "message", "msg");
  }

  // ---------- the error ----------

  datatype Response = NoResponse | Response(status: int, requestId: string, verb: string, url: string)

  function StatusOf(resp: Response): int {
    if resp.NoResponse? then 0 else resp.status
  }

  class APIError {
    var code: ErrorCode
    var wireCategory: string // what the payload says, before the tables are consulted
    var category: ErrorCategory
    var message: string
    var requestId: string
    const status: int
    const verb: string
    const url: string
    const body: string

    constructor (resp: Response, body: string)
      ensures code == NoCode && category == NoCategory && wireCategory == "" && message == "" && requestId == ""
      ensures this.body == body && status == StatusOf(resp)
      ensures resp.Response? ==> verb == resp.verb && url == resp.url
      ensures resp.NoResponse? ==> verb == "" && url == ""
    {
      code, category, wireCategory, message, requestId := NoCode, NoCategory, "", "", "";
      this.body, this.status := body, StatusOf(resp);
      this.verb := if resp.Response? then resp.verb else "";
      this.url := if resp.Response? then resp.url else "";
    }
  }

  lemma FirstNonEmptyPair(x: string, a: seq<string>, b: seq<string>)
    ensures FirstNonEmpty([FirstNonEmpty([x] + a)] + b) == FirstNonEmpty([x] + (a + b))
  {
    FirstNonEmptyFolds([x] + a, b);
    assert [x] + a + b == [x] + (a + b);
  }

  lemma FirstNonEmptyDropsEmpty(a: seq<string>)
    ensures FirstNonEmpty(a + [""]) == FirstNonEmpty(a)
  {
    FirstNonEmptyConcat(a, [""]);
    TrimOfTrimmed("", IsSpace);
    assert [""][1..] == [];
  }

  /** Fills the three fields from one level, then from the levels below it. */
  method DecodeObject(err: APIError, payload: Json)
    requires payload.Object?
    modifies err
    ensures err.code == old(err.code) && err.category == old(err.category)
    ensures err.wireCategory == FirstNonEmpty([old(err.wireCategory)] + Under(Levels(payload), CATEGORY_KEYS))
    ensures err.message ==
            FirstNonEmpty([old(err.message)] + (Under(Levels(payload), MESSAGE_KEYS) + [ErrorText(payload)]))
    ensures err.requestId == FirstNonEmpty([old(err.requestId)] + Under(Levels(payload), REQUEST_ID_KEYS))
    decreases payload
  {
    err.wireCategory := FirstNonEmpty([err.wireCategory] + At(payload, CATEGORY_KEYS));
    err.message := FirstNonEmpty([err.message] + At(payload, MESSAGE_KEYS));
    err.requestId := FirstNonEmpty([err.requestId] + At(payload, REQUEST_ID_KEYS));
    UnderSplits(payload, CATEGORY_KEYS);
    UnderSplits(payload, MESSAGE_KEYS);
    UnderSplits(payload, REQUEST_ID_KEYS);
    var nested := Nested(payload);
    ghost var w, m, r := old(err.wireCategory), old(err.message), old(err.requestId);
    if nested.Object? {
      ghost var below := Under(Levels(nested), MESSAGE_KEYS) + [ErrorText(nested)];
      FirstNonEmptyPair(w, At(payload, CATEGORY_KEYS), Under(Levels(nested), CATEGORY_KEYS));
      FirstNonEmptyPair(m, At(payload, MESSAGE_KEYS), below);
      FirstNonEmptyPair(r, At(payload, REQUEST_ID_KEYS), Under(Levels(nested), REQUEST_ID_KEYS));
      assert At(payload, MESSAGE_KEYS) + below ==
             At(payload, MESSAGE_KEYS) + Under(Levels(nested), MESSAGE_KEYS) + [ErrorText(nested)];
      DecodeObject(err, nested);
    } else {
      assert At(payload, CATEGORY_KEYS) + [] == At(payload, CATEGORY_KEYS);
      assert At(payload, MESSAGE_KEYS) + [] == At(payload, MESSAGE_KEYS);
      assert At(payload, REQUEST_ID_KEYS) + [] == At(payload, REQUEST_ID_KEYS);
      FirstNonEmptyPair(m, At(payload, MESSAGE_KEYS), [ValueString(nested)]);
      if ValueString(nested) != "" {
        err.message := FirstNonEmpty([err.message] + [ValueString(nested)]);
      } else {
        FirstNonEmptyDropsEmpty([m] + At(payload, MESSAGE_KEYS));
        assert [m] + At(payload, MESSAGE_KEYS) + [""] == [m] + (At(payload, MESSAGE_KEYS) + [ValueString(nested)]);
      }
    }
  }

  /** The payload of a body: blank text and anything but an object count as none. */
  function PayloadOf(parse: string -> Option<Json>, body: string): (r: Option<Json>)
    ensures r.Some? ==> r.value.Object? && r == parse(body)
    ensures r.Some? <==> TrimSpace(body) != "" && parse(body).Some? && parse(body).value.Object?
  {
    if TrimSpace(body) == "" then None
    else match parse(body) case Some(Object(fields)) => Some(Object(fields)) case _ => None
  }

  /** The code that the payload names, if any. */
  function NamedCode(names: Names, payload: Option<Json>): ErrorCode
    requires payload.Some? ==> payload.value.Object?
  {
    if payload.Some? then PayloadCode(names, payload.value) else NoCode
  }

  function FinalCode(status: int, named: ErrorCode): ErrorCode {
    if named == NoCode then CodeForStatus(status) else named
  }

  function FinalCategory(names: Names, status: int, code: ErrorCode, wireCategory: string): ErrorCategory {
    match CategoryForCode(code)
    case Some(category) => category
    case None => if wireCategory == "" then CategoryForStatus(status) else names.category(wireCategory)
  }

  /** The payload's message, else the body, else the name of the status. */
  function FinalMessage(statusText: int -> string, status: int, body: string, payloadMessage: string): string {
    if payloadMessage != "" then payloadMessage
    else if TrimSpace(body) != "" then TrimSpace(body)
    else if statusText(status) != "" then statusText(status)
    else if status >= 500 && statusText(500) != "" then statusText(500)
    else "request failed"
  }

  lemma FoldsFromNothing(values: seq<string>)
    ensures FirstNonEmpty([""] + values) == FirstNonEmpty(values)
  {
    FirstNonEmptyFolds([], values);
    assert [] + values == values;
  }

  /** Reads the body if it is an object; a request id from the headers comes first. */
  method DecodePayload(err: APIError, names: Names, parse: string -> Option<Json>, ghost header: seq<string>)
    requires err.code == NoCode && err.wireCategory == "" && err.message == ""
    requires err.requestId == FirstNonEmpty(header)
    modifies err
    ensures err.category == old(err.category)
    ensures var payload := PayloadOf(parse, err.body);
            && err.code == NamedCode(names, payload)
            && err.wireCategory == FirstNonEmpty(Candidates(payload, CATEGORY_KEYS))
            && err.message == FirstNonEmpty(MessageCandidates(payload))
            && err.requestId == FirstNonEmpty(header + Candidates(payload, REQUEST_ID_KEYS))
  {
    var payload := PayloadOf(parse, err.body);
    if payload.Some? {
      err.code := FirstErrorCode(names, payload.value);
      FirstNonEmptyFolds(header, Candidates(payload, REQUEST_ID_KEYS));
      FoldsFromNothing(Candidates(payload, CATEGORY_KEYS));
      FoldsFromNothing(MessageCandidates(payload));
      DecodeObject(err, payload.value);
    }
    assert header + [] == header;
  }

  /** Falls back to the HTTP status; a listed code overrides the category of the payload. */
  method CompleteCode(names: Names, status: int, named: ErrorCode, wireCategory: string)
    returns (code: ErrorCode, category: ErrorCategory)
    ensures code == FinalCode(status, named) && category == FinalCategory(names, status, code, wireCategory)
  {
    code := named;
    if code == NoCode {
      code := CodeForStatus(status);
    }
    match CategoryForCode(code) {
      case Some(listed) => category := listed;
      case None => category := if wireCategory == "" then CategoryForStatus(status) else names.category(wireCategory);
    }
  }

  method CompleteMessage(statusText: int -> string, status: int, body: string, payloadMessage: string)
    returns (message: string)
    ensures message == FinalMessage(statusText, status, body, payloadMessage)
    ensures message != ""
  {
    message := payloadMessage;
    if message == "" {
      message := TrimSpace(body);
    }
    if message == "" {
      message := statusText(status);
      if message == "" && status >= 500 {
        message := statusText(500);
      }
    }
    if message == "" {
      message := "request failed";
    }
  }

  // ---------- what a response means, without the functions that compute it ----------

  function CandidatesOf(payload: Option<Json>): seq<string>
    requires payload.Some? ==> payload.value.Object?
  {
    if payload.Some? then CodeCandidates(payload.value) else []
  }

  /** The deciding word of the payload names the code, else its deciding number does as a status, else the HTTP status does. */
  ghost predicate CodeDecided(names: Names, status: int, payload: Option<Json>, code: ErrorCode)
    requires payload.Some? ==> payload.value.Object?
  {
    var candidates := CandidatesOf(payload);
    && (forall k: nat :: DecidingWord(candidates, k) ==> code == names.code(candidates[k]))
    && (forall k: nat :: DecidingNumber(candidates, k) ==> code == CodeForStatus(ParseInt(candidates[k]).value))
    && (NoCandidate(candidates) ==> code == CodeForStatus(status))
  }

  /** A listed code decides the category; any other leaves it to the payload, and last to the HTTP status. */
  ghost predicate CategoryDecided(names: Names, status: int, payload: Option<Json>, code: ErrorCode, category: ErrorCategory)
    requires payload.Some? ==> payload.value.Object?
  {
    var said := FirstNonEmpty(Candidates(payload, CATEGORY_KEYS));
    && (CategoryForCode(code).Some? ==> category == CategoryForCode(code).value)
    && (CategoryForCode(code).None? && said != "" ==> category == names.category(said))
    && (CategoryForCode(code).None? && said == "" ==> category == CategoryForStatus(status))
  }

  /** The payload's message comes before the body, and the body before any status text. */
  ghost predicate MessageDecided(statusText: int -> string, status: int, body: string, payload: Option<Json>, message: string)
    requires payload.Some? ==> payload.value.Object?
  {
    var said := FirstNonEmpty(MessageCandidates(payload));
    && (said != "" ==> message == said)
    && (said == "" && TrimSpace(body) != "" ==> message == TrimSpace(body))
    && (said == "" && TrimSpace(body) == "" && statusText(status) != "" ==> message == statusText(status))
    && (said == "" && TrimSpace(body) == "" && statusText(status) == "" ==>
          message == if status >= 500 && statusText(500) != "" then statusText(500) else "request failed")
  }

  /** `errors.Is` on the error alone: by category for a broad sentinel, by code for an exact one. */
  ghost predicate AnswersAs(code: ErrorCode, category: ErrorCategory, target: Class)
    requires target.Definition?
  {
    Is(Error(Api(code, category), Leaf), target) <==>
    if IsBroadCode(target.code) then category == target.category else code == target.code
  }

  lemma CandidatesDecide(names: Names, status: int, candidates: seq<string>, k: nat)
    requires Faithful(names)
    ensures var named := if FirstWord(candidates) != "" then names.code(FirstWord(candidates)) else FirstNumber(candidates);
            && (DecidingWord(candidates, k) ==> FinalCode(status, named) == names.code(candidates[k]))
            && (DecidingNumber(candidates, k) ==> FinalCode(status, named) == CodeForStatus(ParseInt(candidates[k]).value))
            && (NoCandidate(candidates) ==> FinalCode(status, named) == CodeForStatus(status))
  {
    Decides(candidates);
    if DecidingWord(candidates, k) {
      assert names.code(candidates[k]) != NoCode;
    }
    if DecidingNumber(candidates, k) {
      StatusTablesAgree(ParseInt(candidates[k]).value);
    }
  }

  lemma FinalCodeDecided(names: Names, status: int, payload: Option<Json>)
    requires Faithful(names) && (payload.Some? ==> payload.value.Object?)
    ensures CodeDecided(names, status, payload, FinalCode(status, NamedCode(names, payload)))
  {
    var candidates := CandidatesOf(payload);
    forall k: nat
      ensures DecidingWord(candidates, k) ==> FinalCode(status, NamedCode(names, payload)) == names.code(candidates[k])
      ensures DecidingNumber(candidates, k) ==>
                FinalCode(status, NamedCode(names, payload)) == CodeForStatus(ParseInt(candidates[k]).value)
    {
      CandidatesDecide(names, status, candidates, k);
    }
    CandidatesDecide(names, status, candidates, 0);
  }

  lemma ClassifiedAnswers(code: ErrorCode, category: ErrorCategory, target: Class)
    requires Sentinel(target) && Consistent(Api(code, category))
    ensures AnswersAs(code, category, target)
  {
    var node := Error(Api(code, category), Leaf);
    assert Preorder(node) == [Api(code, category)];
    if IsBroadCode(target.code) {
      BroadSentinel(node, target);
    } else {
      ExactSentinel(node, target);
    }
  }

  lemma AllAnswers(names: Names, status: int, code: ErrorCode, wireCategory: string)
    ensures forall target :: Sentinel(target) ==> AnswersAs(code, FinalCategory(names, status, code, wireCategory), target)
  {
    var category := FinalCategory(names, status, code, wireCategory);
    forall target | Sentinel(target)
      ensures AnswersAs(code, category, target)
    {
      ClassifiedAnswers(code, category, target);
    }
  }

  /** All of this together; and the message is never empty. */
  ghost predicate Decided(names: Names, statusText: int -> string, status: int, body: string, payload: Option<Json>,
                          code: ErrorCode, category: ErrorCategory, message: string)
    requires payload.Some? ==> payload.value.Object?
  {
    && (Faithful(names) ==> CodeDecided(names, status, payload, code))
    && CategoryDecided(names, status, payload, code, category)
    && MessageDecided(statusText, status, body, payload, message) && message != ""
    && forall target :: Sentinel(target) ==> AnswersAs(code, category, target)
  }

  lemma FinalDecided(names: Names, statusText: int -> string, status: int, body: string, payload: Option<Json>)
    requires payload.Some? ==> payload.value.Object?
    ensures var code := FinalCode(status, NamedCode(names, payload));
            var said := FirstNonEmpty(Candidates(payload, CATEGORY_KEYS));
            Decided(names, statusText, status, body, payload, code, FinalCategory(names, status, code, said),
                    FinalMessage(statusText, status, body, FirstNonEmpty(MessageCandidates(payload))))
  {
    var code := FinalCode(status, NamedCode(names, payload));
    if Faithful(names) {
      FinalCodeDecided(names, status, payload);
    }
    AllAnswers(names, status, code, FirstNonEmpty(Candidates(payload, CATEGORY_KEYS)));
  }

  method FromResponse(names: Names, statusText: int -> string, parse: string -> Option<Json>, resp: Response, body: string)
    returns (err: APIError)
    ensures fresh(err) && err.body == body && err.status == StatusOf(resp)
    ensures resp.Response? ==> err.verb == resp.verb && err.url == resp.url && err.status == resp.status
    ensures resp.NoResponse? ==> err.verb == "" && err.url == "" && err.status == 0
    ensures var payload := PayloadOf(parse, body);
            && err.code == FinalCode(StatusOf(resp), NamedCode(names, payload))
            && err.category ==
                 FinalCategory(names, StatusOf(resp), err.code, FirstNonEmpty(Candidates(payload, CATEGORY_KEYS)))
            && err.requestId == FirstNonEmpty(
                 (if resp.Response? then [resp.requestId, resp.requestId] else []) + Candidates(payload, REQUEST_ID_KEYS))
            && err.message == FinalMessage(statusText, StatusOf(resp), body, FirstNonEmpty(MessageCandidates(payload)))
    ensures Decided(names, statusText, StatusOf(resp), body, PayloadOf(parse, body), err.code, err.category, err.message)
  {
    err := new APIError(resp, body);
    if resp.Response? {
      err.requestId := FirstNonEmpty([resp.requestId, resp.requestId]);
    }
    ghost var header := if resp.Response? then [resp.requestId, resp.requestId] else [];
    assert err.requestId == FirstNonEmpty(header);
    DecodePayload(err, names, parse, header);
    err.code, err.category := CompleteCode(names, err.status, err.code, err.wireCategory);
    err.message := CompleteMessage(statusText, err.status, err.body, err.message);
    FinalDecided(names, statusText, err.status, body, PayloadOf(parse, body));
  }

  lemma {:induction false} WordCodeNamed(names: Names, candidates: seq<string>)
    requires Faithful(names)
    ensures (if FirstWord(candidates) != "" then names.code(FirstWord(candidates)) else FirstNumber(candidates)) == NoCode
            <==> forall x :: x in candidates ==> x == ""
  {
    var k := DecidingCandidate(candidates);
    if k < |candidates| {
      assert candidates[k] != "" && candidates[k] in candidates;
      if FirstWord(candidates) == "" {
        assert NumberCode(candidates[k]) != NoCode;
      } else {
        assert names.code(FirstWord(candidates)) != NoCode;
      }
    }
  }

  /** A payload names no code exactly if no candidate at any depth has text or a whole number. */
  lemma PayloadCodeNamed(names: Names, payload: Json)
    requires Faithful(names) && payload.Object?
    ensures PayloadCode(names, payload) == NoCode <==>
            forall x :: x in CodeCandidates(payload) ==> x == ""
  {
    WordCodeNamed(names, CodeCandidates(payload));
  }

  /**
   Whatever code and category text a payload names, if any: the error's code and category are
   named, a listed code decides the category, and `errors.Is` answers by them, for a broad
   sentinel by category and for an exact one by code.
   */
  lemma ResponsesAreClassified(names: Names, status: int, named: ErrorCode, wireCategory: string, target: Class)
    requires Faithful(names) && Sentinel(target)
    ensures var code := FinalCode(status, named);
            var category := FinalCategory(names, status, code, wireCategory);
            && code != NoCode && category != NoCategory
            && (CategoryForCode(code).Some? ==> category == CategoryForCode(code).value)
            && (Is(Error(Api(code, category), Leaf), target) <==>
                  if IsBroadCode(target.code) then category == target.category else code == target.code)
  {
    StatusTablesAgree(status);
    ClassifiedAnswers(FinalCode(status, named), FinalCategory(names, status, FinalCode(status, named), wireCategory), target);
  }

  /** Without a code in the payload, the error says what the HTTP status says, whatever category the payload claims. */
  lemma StatusDecidesAlone(names: Names, status: int, payload: Json, wireCategory: string)
    requires Faithful(names) && payload.Object?
    requires forall x :: x in CodeCandidates(payload) ==> x == ""
    ensures FinalCode(status, NamedCode(names, Some(payload))) == CodeForStatus(status)
    ensures FinalCategory(names, status, CodeForStatus(status), wireCategory) == CategoryForStatus(status)
  {
    StatusTablesAgree(status);
    PayloadCodeNamed(names, payload);
  }
}
