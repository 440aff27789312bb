/** The R entry points that load a QML form: one-time start-up of the Qt
    application and engine, `checkOptions` (errors gathered into a JSON result)
    and `runQml` (a step-by-step log). The Qt calls themselves (file lookup,
    component creation, `parseOptions`, the item's `info` property) are
    supplied as functions. */
module QmlR {
  import opened Options
  import opened Decimal

  // ---------------------------------------------------------------------
  // JSON objects and the "error" entry
  // ---------------------------------------------------------------------

  datatype Json =
    | JNull
    | JBool(b: bool)
    | JNumber(n: real)
    | JString(s: string)
    | JArray(items: seq<Json>)
    | JObject(fields: map<string, Json>)

  type JsonObject = map<string, Json>

  /** `QJsonObject::operator[]` on a key: its value, or null when absent. */
  function Lookup(obj: JsonObject, key: string): (v: Json)
    ensures key in obj ==> v == obj[key]
    ensures key !in obj ==> v.JNull?
  {
    if key in obj then obj[key] else JNull
  }

  /** `QJsonValue::toString`: the text of a string value, "" for anything else. */
  function ToStr(v: Json): (s: string)
    ensures v.JString? ==> s == v.s
    ensures !v.JString? ==> s == ""
  {
    if v.JString? then v.s else ""
  }

  /** `QJsonValue::toObject`: the members of an object value, none for anything else. */
  function ToObject(v: Json): (o: JsonObject)
    ensures v.JObject? ==> o == v.fields
    ensures !v.JObject? ==> o == map[]
  {
    if v.JObject? then v.fields else map[]
  }

  predicate NoNewline(s: string) {
    forall j :: 0 <= j < |s| ==> s[j] != '\n'
  }

  /** Messages joined with "\n" between them, in order. */
  function JoinLines(msgs: seq<string>): string {
    if |msgs| == 0 then ""
    else if |msgs| == 1 then msgs[0]
    else JoinLines(msgs[..|msgs| - 1]) + "\n" + msgs[|msgs| - 1]
  }

  lemma JoinLinesSnoc(msgs: seq<string>, m: string)
    ensures |msgs| == 0 ==> JoinLines(msgs + [m]) == m
    ensures |msgs| > 0 ==> JoinLines(msgs + [m]) == JoinLines(msgs) + "\n" + m
  {
    assert (msgs + [m])[..|msgs|] == msgs;
  }

  /** Position of the last '\n' in `s`. */
  function LastNewline(s: string): (r: Option<nat>)
    ensures r.Some? ==> r.value < |s| && s[r.value] == '\n'
    ensures r.Some? ==> forall j :: r.value < j < |s| ==> s[j] != '\n'
    ensures r.None? ==> NoNewline(s)
  {
    if s == [] then None
    else if s[|s| - 1] == '\n' then Some(|s| - 1)
    else LastNewline(s[..|s| - 1])
  }

  /** The lines of `s`, split at every '\n'. */
  function SplitLines(s: string): (r: seq<string>)
    ensures |r| > 0
    decreases |s|
  {
    match LastNewline(s)
    case None => [s]
    case Some(i) => SplitLines(s[..i]) + [s[i + 1..]]
  }

  /** The joined "error" text gives back the individual messages, provided none
      of them holds a line break itself. */
  lemma {:induction false} SplitJoinLines(msgs: seq<string>)
    requires |msgs| > 0
    requires forall i :: 0 <= i < |msgs| ==> NoNewline(msgs[i])
    ensures SplitLines(JoinLines(msgs)) == msgs
  {
    if |msgs| > 1 {
      var front := msgs[..|msgs| - 1];
      var m := msgs[|msgs| - 1];
      var joined := JoinLines(front);
      var s := joined + "\n" + m;
      assert s[|joined|] == '\n';
      assert forall j :: |joined| < j < |s| ==> s[j] == m[j - |joined| - 1];
      match LastNewline(s) {
        case None =>
          assert false;
        case Some(i) =>
          assert i == |joined|;
          assert s[..i] == joined;
          assert s[i + 1..] == m;
          SplitJoinLines(front);
          assert front + [m] == msgs;
      }
    }
  }

  /** `addError`: sets "error" to `msg`, or appends "\n" + `msg` to the text
      already there; no other key changes. */
  method AddError(jsonResult: JsonObject, msg: string) returns (result: JsonObject)
    ensures "error" in result
    ensures "error" !in jsonResult ==> result["error"] == JString(msg)
    ensures "error" in jsonResult ==> result["error"] == JString(ToStr(jsonResult["error"]) + "\n" + msg)
    ensures result - {"error"} == jsonResult - {"error"}
  {
    var errorMsg := "";
    if "error" in jsonResult {
      errorMsg := ToStr(jsonResult["error"]) + "\n";
    }
    errorMsg := errorMsg + msg;
    result := jsonResult["error" := JString(errorMsg)];
  }

  /** `obj` holds exactly the messages `msgs`, joined, under "error", and nothing else. */
  predicate ErrorsRecorded(obj: JsonObject, msgs: seq<string>) {
    && obj.Keys <= {"error"}
    && ("error" in obj <==> |msgs| > 0)
    && ("error" in obj ==> obj["error"] == JString(JoinLines(msgs)))
  }

  /** One more `addError` records one more message, after the earlier ones. */
  lemma AddErrorAppends(obj: JsonObject, msgs: seq<string>, m: string, result: JsonObject)
    requires ErrorsRecorded(obj, msgs)
    requires "error" in result
    requires "error" !in obj ==> result["error"] == JString(m)
    requires "error" in obj ==> result["error"] == JString(ToStr(obj["error"]) + "\n" + m)
    requires result - {"error"} == obj - {"error"}
    ensures ErrorsRecorded(result, msgs + [m])
  {
    JoinLinesSnoc(msgs, m);
    assert obj.Keys - {"error"} == {};
    assert (result - {"error"}).Keys == result.Keys - {"error"};
  }

  // ---------------------------------------------------------------------
  // Component errors
  // ---------------------------------------------------------------------

  /** A `QQmlError`. */
  datatype QmlError = QmlError(line: int, column: int, description: string)

  /** The message for one component error, in both `checkOptions` and `runQml`:
      the fixed prefix first and the error's description last. */
  function ComponentErrorMessage(e: QmlError): (m: string)
    ensures |m| > |ComponentErrorPrefix| && m[..|ComponentErrorPrefix|] == ComponentErrorPrefix
    ensures EndsWith(m, e.description)
  {
    var head := ComponentErrorPrefix + ErrorLocation(e);
    EndsWithConcat(head, e.description);
    head + e.description
  }

  /** The "<line>,<column>: " part of a component error message. */
  function ErrorLocation(e: QmlError): string {
    IntToDecimal(e.line) + "," + IntToDecimal(e.column) + ": "
  }

  const ComponentErrorPrefix := "Error when creating component at "

  lemma EndsWithConcat<T>(a: seq<T>, b: seq<T>)
    ensures EndsWith(a + b, b)
  {
    assert (a + b)[|a|..] == b;
  }

  /** `f` applied to every element, built front to back as a `push_back` loop
      builds it. */
  function Mapped<T, U>(xs: seq<T>, f: T -> U): (r: seq<U>)
    ensures |r| == |xs|
  {
    if xs == [] then [] else Mapped(xs[..|xs| - 1], f) + [f(xs[|xs| - 1])]
  }

  lemma MappedSnoc<T, U>(xs: seq<T>, f: T -> U, k: nat)
    requires k < |xs|
    ensures Mapped(xs[..k + 1], f) == Mapped(xs[..k], f) + [f(xs[k])]
  {
    assert xs[..k + 1][..k] == xs[..k];
  }

  lemma {:induction false} MappedAt<T, U>(xs: seq<T>, f: T -> U, i: nat)
    requires i < |xs|
    ensures Mapped(xs, f)[i] == f(xs[i])
  {
    var k := |xs| - 1;
    MappedSnoc(xs, f, k);
    assert xs[..k + 1] == xs;
    if i < k {
      MappedAt(xs[..k], f, i);
    }
  }

  /** One message per component error, in the errors' order. */
  function ComponentMessages(errors: seq<QmlError>): (r: seq<string>)
    ensures |r| == |errors|
  {
    Mapped(errors, ComponentErrorMessage)
  }

  /** One more error in the prefix adds its message at the end. */
  lemma ComponentMessagesSnoc(errors: seq<QmlError>, k: nat)
    requires k < |errors|
    ensures ComponentMessages(errors[..k + 1]) == ComponentMessages(errors[..k]) + [ComponentErrorMessage(errors[k])]
  {
    MappedSnoc(errors, ComponentErrorMessage, k);
  }

  /** Message `i` is the message of error `i`. */
  lemma ComponentMessagesAt(errors: seq<QmlError>, i: nat)
    requires i < |errors|
    ensures ComponentMessages(errors)[i] == ComponentErrorMessage(errors[i])
  {
    MappedAt(errors, ComponentErrorMessage, i);
  }

  /** Every component message is one line when every description is. */
  lemma ComponentMessagesOneLine(errors: seq<QmlError>)
    requires forall i :: 0 <= i < |errors| ==> NoNewline(errors[i].description)
    ensures forall i :: 0 <= i < |errors| ==> NoNewline(ComponentMessages(errors)[i])
  {
    forall i | 0 <= i < |errors|
      ensures NoNewline(ComponentMessages(errors)[i])
    {
      ComponentMessagesAt(errors, i);
      ComponentErrorMessageOneLine(errors[i]);
    }
  }

  lemma NoNewlineConcat(a: string, b: string)
    requires NoNewline(a) && NoNewline(b)
    ensures NoNewline(a + b)
  {
    forall j | 0 <= j < |a + b|
      ensures (a + b)[j] != '\n'
    {
      if j >= |a| {
        assert (a + b)[j] == b[j - |a|];
      }
    }
  }

  /** A component error message is one line when its description is. */
  lemma ComponentErrorMessageOneLine(e: QmlError)
    requires NoNewline(e.description)
    ensures NoNewline(ComponentErrorMessage(e))
  {
    var line := IntToDecimal(e.line);
    var col := IntToDecimal(e.column);
    DecimalOneLine(e.line);
    DecimalOneLine(e.column);
    NoNewlineConcat(line, ",");
    NoNewlineConcat(line + ",", col);
    NoNewlineConcat(line + "," + col, ": ");
    NoNewlineConcat(ComponentErrorPrefix, ErrorLocation(e));
    NoNewlineConcat(ComponentErrorPrefix + ErrorLocation(e), e.description);
  }

  lemma DecimalOneLine(i: int)
    ensures NoNewline(IntToDecimal(i))
  {
    if i < 0 {
      var d := NatToDecimal(-i);
      NatToDecimalDigits(-i);
      assert IntToDecimal(i) == "-" + d;
      assert forall j :: 0 <= j < |d| ==> IsDigit(d[j]);
      NoNewlineConcat("-", d);
    } else {
      NatToDecimalDigits(i);
      assert forall j :: 0 <= j < |NatToDecimal(i)| ==> IsDigit(NatToDecimal(i)[j]);
    }
  }

  // ---------------------------------------------------------------------
  // The Qt side, as supplied functions
  // ---------------------------------------------------------------------

  /** A created `QQuickItem`. */
  datatype Item = Item(id: nat)

  /** What creating a component from a file yields: the item, if any, and the
      component's errors. */
  datatype Creation = Creation(item: Option<Item>, errors: seq<QmlError>)

  datatype QtCalls = QtCalls(
    fileExists: string -> bool,
    create: string -> Creation,
    parseOptions: (Item, JsonObject) -> JsonObject,
    info: Item -> string)

  /** The environment variables `init` reads ("" when unset) and the built-in
      fallbacks compiled in, if any. */
  datatype Environment = Environment(
    qtDir: string,
    pluginDir: string,
    rHome: string,
    builtInQtDir: Option<string>,
    builtInPluginDir: Option<string>)

  /** A directory from the environment, or the built-in one when the variable is empty. */
  function ResolvedDir(fromEnv: string, builtIn: Option<string>): (r: string)
    ensures fromEnv != "" ==> r == fromEnv
    ensures r == fromEnv || builtIn == Some(r)
    ensures r == "" ==> fromEnv == "" && (builtIn.None? || builtIn.value == "")
  {
    if fromEnv == "" && builtIn.Some? then builtIn.value else fromEnv
  }

  /** The lines `init` writes on its first call: one each for the two resolved
      directories and R_HOME, in that order. */
  function InitLines(env: Environment): (r: seq<string>)
    ensures |r| == 3
    ensures EndsWith(r[0], ResolvedDir(env.qtDir, env.builtInQtDir))
    ensures EndsWith(r[1], ResolvedDir(env.pluginDir, env.builtInPluginDir))
    ensures EndsWith(r[2], env.rHome)
  {
    var qt, plugin := ResolvedDir(env.qtDir, env.builtInQtDir), ResolvedDir(env.pluginDir, env.builtInPluginDir);
    EndsWithConcat("QT_DIR found in environment: ", qt);
    EndsWithConcat("JASP_QML_PLUGIN_DIR found in environment: ", plugin);
    EndsWithConcat("R_HOME: ", env.rHome);
    [ "QT_DIR found in environment: " + qt,
      "JASP_QML_PLUGIN_DIR found in environment: " + plugin,
      "R_HOME: " + env.rHome ]
  }

  /** The QML engine, with the import paths added to it. */
  datatype Engine = Engine(importPaths: seq<string>)

  /** The "error" messages of one `checkOptions` call, in the order they are added. */
  function CheckOptionsErrors(fileFound: bool, creation: Creation): (r: seq<string>)
    ensures |r| == (if fileFound then 0 else 1) + |creation.errors| + (if creation.item.None? then 1 else 0)
    ensures r == [] <==> fileFound && creation.errors == [] && creation.item.Some?
  {
    (if fileFound then [] else [FileNotFound])
    + ComponentMessages(creation.errors)
    + (if creation.item.None? then [ItemNotCreated] else [])
  }

  /** "File NOT found" comes first, the component errors follow in their order,
      and "Item not created" comes last. */
  lemma CheckOptionsErrorOrder(fileFound: bool, creation: Creation)
    ensures |CheckOptionsErrors(fileFound, creation)|
      == (if fileFound then 0 else 1) + |creation.errors| + (if creation.item.None? then 1 else 0)
    ensures !fileFound ==> CheckOptionsErrors(fileFound, creation)[0] == FileNotFound
    ensures forall i :: 0 <= i < |creation.errors| ==>
      CheckOptionsErrors(fileFound, creation)[(if fileFound then 0 else 1) + i] == ComponentErrorMessage(creation.errors[i])
    ensures creation.item.None? ==>
      CheckOptionsErrors(fileFound, creation)[|CheckOptionsErrors(fileFound, creation)| - 1] == ItemNotCreated
  {
    var head: seq<string> := if fileFound then [] else [FileNotFound];
    var tail: seq<string> := if creation.item.None? then [ItemNotCreated] else [];
    var comp := ComponentMessages(creation.errors);
    ThreeParts(head, comp, tail);
    assert |head| == if fileFound then 0 else 1;
    forall i | 0 <= i < |creation.errors|
      ensures CheckOptionsErrors(fileFound, creation)[|head| + i] == ComponentErrorMessage(creation.errors[i])
    {
      assert CheckOptionsErrors(fileFound, creation)[|head| + i] == comp[i];
      ComponentMessagesAt(creation.errors, i);
    }
  }

  /** In a three-part concatenation the first part comes first, the middle part
      keeps its positions shifted by the first part, and the last part comes last. */
  lemma ThreeParts<T>(a: seq<T>, b: seq<T>, c: seq<T>)
    ensures |a + b + c| == |a| + |b| + |c|
    ensures |a| == 1 ==> (a + b + c)[0] == a[0]
    ensures forall i :: 0 <= i < |b| ==> (a + b + c)[|a| + i] == b[i]
    ensures |c| == 1 ==> (a + b + c)[|a + b + c| - 1] == c[0]
  {
  }

  /** Neither fixed message holds a line break. */
  lemma FixedMessagesOneLine()
    ensures NoNewline(FileNotFound) && NoNewline(ItemNotCreated)
  {
  }

  lemma EachOneLineConcat(a: seq<string>, b: seq<string>)
    requires forall i :: 0 <= i < |a| ==> NoNewline(a[i])
    requires forall i :: 0 <= i < |b| ==> NoNewline(b[i])
    ensures forall i :: 0 <= i < |a + b| ==> NoNewline((a + b)[i])
  {
    forall i | 0 <= i < |a + b|
      ensures NoNewline((a + b)[i])
    {
      if i >= |a| {
        assert (a + b)[i] == b[i - |a|];
      }
    }
  }

  /** No `checkOptions` message holds a line break when no description does. */
  lemma CheckOptionsErrorsOneLine(fileFound: bool, creation: Creation)
    requires forall i :: 0 <= i < |creation.errors| ==> NoNewline(creation.errors[i].description)
    ensures var msgs := CheckOptionsErrors(fileFound, creation);
      forall i :: 0 <= i < |msgs| ==> NoNewline(msgs[i])
  {
    var head: seq<string> := if fileFound then [] else [FileNotFound];
    var comp := ComponentMessages(creation.errors);
    var tail: seq<string> := if creation.item.None? then [ItemNotCreated] else [];
    FixedMessagesOneLine();
    ComponentMessagesOneLine(creation.errors);
    EachOneLineConcat(head, comp);
    EachOneLineConcat(head + comp, tail);
  }

  /** The "error" text of `checkOptions` splits back into its messages. */
  lemma CheckOptionsErrorsRecoverable(fileFound: bool, creation: Creation)
    requires forall i :: 0 <= i < |creation.errors| ==> NoNewline(creation.errors[i].description)
    requires CheckOptionsErrors(fileFound, creation) != []
    ensures SplitLines(JoinLines(CheckOptionsErrors(fileFound, creation))) == CheckOptionsErrors(fileFound, creation)
  {
    CheckOptionsErrorsOneLine(fileFound, creation);
    SplitJoinLines(CheckOptionsErrors(fileFound, creation));
  }

  // ---------------------------------------------------------------------
  // The .qml suffix, as written and as intended
  // ---------------------------------------------------------------------

  predicate EndsWith<T(==)>(a: seq<T>, b: seq<T>) {
    |b| <= |a| && a[|a| - |b|..] == b
  }

  predicate EndsWithQml(s: string) {
    EndsWith(s, ".qml")
  }

  /** The UTF-8 encoding of one character, as byte values. */
  function Utf8Char(c: char): (b: seq<int>)
    ensures 1 <= |b| <= 4
    ensures b[|b| - 1] < 0x80 <==> c as int < 0x80
    ensures c as int < 0x80 ==> b == [c as int]
  {
    var n := c as int;
    if n < 0x80 then [n]
    else if n < 0x800 then [0xC0 + n / 0x40, 0x80 + n % 0x40]
    else if n < 0x1_0000 then [0xE0 + n / 0x1000, 0x80 + n / 0x40 % 0x40, 0x80 + n % 0x40]
    else [0xF0 + n / 0x4_0000, 0x80 + n / 0x1000 % 0x40, 0x80 + n / 0x40 % 0x40, 0x80 + n % 0x40]
  }

  /** The bytes `get_cstring()` hands over for a string, taken as UTF-8. */
  function Utf8(s: string): (b: seq<int>)
    ensures |s| <= |b| <= 4 * |s|
    ensures Ascii(s) ==> b == AsciiBytes(s)
  {
    if s == [] then [] else Utf8(s[..|s| - 1]) + Utf8Char(s[|s| - 1])
  }

  predicate Ascii(t: string) {
    forall i :: 0 <= i < |t| ==> t[i] as int < 0x80
  }

  /** The bytes of an ASCII string: one per character. */
  function AsciiBytes(t: string): (b: seq<int>)
    ensures |b| == |t| && forall i :: 0 <= i < |t| ==> b[i] == t[i] as int
  {
    seq(|t|, i requires 0 <= i < |t| => t[i] as int)
  }

  lemma EndsWithSnoc<T>(a: seq<T>, x: T, b: seq<T>, y: T)
    ensures EndsWith(a + [x], b + [y]) <==> EndsWith(a, b) && x == y
  {
    if |b| <= |a| {
      var ax, bx := a + [x], b + [y];
      assert ax[|ax| - |bx|..] == a[|a| - |b|..] + [x];
      if ax[|ax| - |bx|..] == bx {
        assert a[|a| - |b|..] == bx[..|b|] == b;
      }
    }
  }

  /** The bytes of a string end with the bytes of an ASCII suffix exactly when
      the string ends with that suffix: UTF-8 never uses an ASCII byte inside a
      multi-byte character. */
  lemma {:induction false} Utf8EndsWithAscii(s: string, t: string)
    requires Ascii(t)
    ensures EndsWith(Utf8(s), AsciiBytes(t)) <==> EndsWith(s, t)
    decreases |t|
  {
    if |t| > 0 && s != [] {
      var s0, c := s[..|s| - 1], s[|s| - 1];
      var t0, d := t[..|t| - 1], t[|t| - 1];
      assert s == s0 + [c] && t == t0 + [d];
      assert AsciiBytes(t) == AsciiBytes(t0) + [d as int];
      EndsWithSnoc(s0, c, t0, d);
      if c as int < 0x80 {
        assert Utf8(s) == Utf8(s0) + [c as int];
        EndsWithSnoc(Utf8(s0), c as int, AsciiBytes(t0), d as int);
        Utf8EndsWithAscii(s0, t0);
      } else {
        var u := Utf8(s);
        assert u[|u| - 1] == Utf8Char(c)[|Utf8Char(c)| - 1];
        assert u[|u| - 1] >= 0x80 > d as int;
      }
    }
  }

  /** The suffix check as written: `std::string::length()` counts bytes, and
      `substr(length() - 4, 4)` throws `std::out_of_range` (here `None`) for a
      name of fewer than four bytes; otherwise the last four bytes are compared
      with ".qml". */
  function QmlNameAsWritten(name: string): (r: Option<string>)
    ensures r.None? <==> |Utf8(name)| < 4
    ensures r.Some? ==> EndsWithQml(r.value)
    ensures r.Some? && EndsWithQml(name) ==> r.value == name
    ensures r.Some? && !EndsWithQml(name) ==> r.value == name + ".qml"
  {
    var bytes := Utf8(name);
    Utf8EndsWithAscii(name, ".qml");
    if |bytes| < 4 then None
    else if !EndsWith(bytes, AsciiBytes(".qml")) then
      var r := name + ".qml";
      assert r[|r| - 4..] == ".qml";
      Some(r)
    else Some(name)
  }

  /** "ui" is rejected instead of becoming "ui.qml". */
  lemma ShortNameRejected()
    ensures QmlNameAsWritten("ui").None? && NormaliseQmlName("ui") == "ui.qml"
  {
    assert Ascii("ui");
    assert |Utf8("ui")| == |AsciiBytes("ui")| == 2;
    assert !EndsWithQml("ui");
  }

  /** "日本" is two characters but six bytes: it does not throw, and gains ".qml". */
  lemma WideShortNameAccepted()
    ensures QmlNameAsWritten("日本") == Some("日本.qml")
  {
    var name := "日本";
    assert name[..1] == "日" && name[1] == '本';
    assert "日"[..0] == [];
    assert |Utf8Char('本')| == 3 && |Utf8("日")| == 3;
    var bytes := Utf8(name);
    assert bytes == Utf8("日") + Utf8Char('本');
    assert |bytes| == 6 && bytes[5] >= 0x80;
    assert !EndsWith(bytes, AsciiBytes(".qml"));
    assert !EndsWithQml(name);
    assert name + ".qml" == "日本.qml";
  }

  /** The intended normalisation: append ".qml" unless the name already ends with it. */
  function NormaliseQmlName(name: string): (r: string)
    ensures EndsWithQml(r)
    ensures EndsWithQml(name) ==> r == name
    ensures !EndsWithQml(name) ==> r == name + ".qml"
  {
    if EndsWithQml(name) then name
    else
      var r := name + ".qml";
      assert r[|r| - 4..] == ".qml";
      r
  }

  /** Normalising twice is normalising once. */
  lemma NormaliseQmlNameIdempotent(name: string)
    ensures NormaliseQmlName(NormaliseQmlName(name)) == NormaliseQmlName(name)
  {
  }

  /** On names of four bytes or more, the code as written does what is intended;
      in particular on every name of four characters or more. */
  lemma QmlNameAsWrittenAgrees(name: string)
    requires |Utf8(name)| >= 4
    ensures QmlNameAsWritten(name) == Some(NormaliseQmlName(name))
  {
  }

  // ---------------------------------------------------------------------
  // The session's static state and the entry points
  // ---------------------------------------------------------------------

  /** The file-level statics of the R entry points. */
  class QmlSession {
    var initialized: bool
    var qtInstallDir: string
    var jaspQmlComponentsDir: string
    var applicationCreated: bool
    var engine: Option<Engine>
    var hasError: bool

    constructor ()
      ensures !initialized && !applicationCreated && engine == None && !hasError
      ensures qtInstallDir == "" && jaspQmlComponentsDir == ""
    {
      initialized := false;
      qtInstallDir := "";
      jaspQmlComponentsDir := "";
      applicationCreated := false;
      engine := None;
      hasError := false;
    }

    /** The state the first `init` leaves behind. */
    ghost predicate InitialisedFrom(env: Environment)
      reads this
    {
      && initialized
      && qtInstallDir == ResolvedDir(env.qtDir, env.builtInQtDir)
      && jaspQmlComponentsDir == ResolvedDir(env.pluginDir, env.builtInPluginDir)
      && applicationCreated
      && engine == Some(Engine([jaspQmlComponentsDir]))
    }

    /** `init`: the first call starts the application and engine and writes
        three lines; every later call changes nothing and writes nothing. */
    method Init(env: Environment, output: seq<string>) returns (out: seq<string>)
      modifies this
      ensures old(initialized) ==> out == output && unchanged(this)
      ensures !old(initialized) ==> InitialisedFrom(env) && out == output + InitLines(env)
      ensures hasError == old(hasError)
    {
      if initialized {
        return output;
      }
      initialized := true;
      qtInstallDir := env.qtDir;
      if qtInstallDir == "" && env.builtInQtDir.Some? {
        qtInstallDir := env.builtInQtDir.value;
      }
      out := output + ["QT_DIR found in environment: " + qtInstallDir];
      jaspQmlComponentsDir := env.pluginDir;
      if jaspQmlComponentsDir == "" && env.builtInPluginDir.Some? {
        jaspQmlComponentsDir := env.builtInPluginDir.value;
      }
      out := out + ["JASP_QML_PLUGIN_DIR found in environment: " + jaspQmlComponentsDir];
      out := out + ["R_HOME: " + env.rHome];
      applicationCreated := true;
      engine := Some(Engine([jaspQmlComponentsDir]));
    }

    /** `checkOptions`: `hasError` is cleared and never set, so the component
        is always created and `parseOptions` always consulted. The result holds
        every message in order under "error" (when there is one) and the parsed
        options under "options". */
    method CheckOptions(jsonInput: JsonObject, env: Environment, qt: QtCalls) returns (result: JsonObject)
      modifies this
      ensures !hasError
      ensures !old(initialized) ==> InitialisedFrom(env)
      ensures old(initialized) ==>
        initialized && qtInstallDir == old(qtInstallDir) && jaspQmlComponentsDir == old(jaspQmlComponentsDir) &&
        applicationCreated == old(applicationCreated) && engine == old(engine)
      ensures var qmlFile := ToStr(Lookup(jsonInput, "qmlFile"));
        var creation := qt.create(qmlFile);
        && ErrorsRecorded(result - {"options"}, CheckOptionsErrors(qt.fileExists(qmlFile), creation))
        && "options" in result
        && result["options"] == JObject(ParsedOptions(creation.item, ToObject(Lookup(jsonInput, "options")), qt))
    {
      hasError := false;
      var output := [];
      output := Init(env, output);

      var optionsJson := ToObject(Lookup(jsonInput, "options"));
      var qmlFile := ToStr(Lookup(jsonInput, "qmlFile"));
      var jsonResult, item := CollectErrors(qmlFile, qt);

      if !hasError {
        var returned := ParsedOptions(item, optionsJson, qt);
        assert jsonResult["options" := JObject(returned)] - {"options"} == jsonResult;
        jsonResult := jsonResult["options" := JObject(returned)];
      }
      result := jsonResult;
    }

    /** `runQml`: the log of loading one form. Start-up runs first. A name of
        fewer than four bytes then throws `std::out_of_range` out of the suffix
        check (`threw`), and R receives an error instead of the log. Otherwise
        the log names the file with ".qml" ensured, stops at a missing file,
        lists the component errors, stops when no item was created, and ends
        with the item's `info` text. */
    method RunQml(qmlFileName: string, options: string, data: string, env: Environment, qt: QtCalls)
      returns (output: seq<string>, threw: bool)
      modifies this
      ensures hasError == old(hasError)
      ensures !old(initialized) ==> InitialisedFrom(env)
      ensures old(initialized) ==>
        initialized && qtInstallDir == old(qtInstallDir) && jaspQmlComponentsDir == old(jaspQmlComponentsDir) &&
        applicationCreated == old(applicationCreated) && engine == old(engine)
      ensures threw <==> |Utf8(qmlFileName)| < 4
      ensures threw ==> output == []
      ensures !threw ==>
        output == (if old(initialized) then [] else InitLines(env)) + RunLog(NormaliseQmlName(qmlFileName), qt)
      ensures !threw && !qt.fileExists(NormaliseQmlName(qmlFileName)) ==>
        output == (if old(initialized) then [] else InitLines(env)) + ["File: " + NormaliseQmlName(qmlFileName), FileNotFound]
    {
      output := [];
      output := Init(env, output);
      var name := QmlNameAsWritten(qmlFileName);
      if name.None? {
        // the exception leaves runQml; the lines gathered so far are lost
        output, threw := [], true;
        return;
      }
      threw := false;
      QmlNameAsWrittenAgrees(qmlFileName);
      assert name.value == NormaliseQmlName(qmlFileName);
      var log := LoadForm(name.value, qt);
      output := output + log;
    }
  }

  /** The part of `runQml` after start-up, for the normalised file name. */
  method LoadForm(name: string, qt: QtCalls) returns (output: seq<string>)
    ensures output == RunLog(name, qt)
    ensures |output| >= 2 && output[0] == "File: " + name
    ensures !qt.fileExists(name) ==> output == ["File: " + name, FileNotFound]
    ensures qt.fileExists(name) ==>
      var creation := qt.create(name);
      && output[1] == "Found file"
      && |output| == 2 + |creation.errors| + (if creation.item.None? then 1 else 2)
      && (forall i :: 0 <= i < |creation.errors| ==> output[2 + i] == ComponentErrorMessage(creation.errors[i]))
      && (creation.item.Some? ==>
            output[|output| - 2..] == ["Item created!!!", "info: " + qt.info(creation.item.value)])
    ensures output[|output| - 1] == ItemNotCreated <==> qt.fileExists(name) && qt.create(name).item.None?
  {
    output := ["File: " + name];
    if !qt.fileExists(name) {
      output := output + [FileNotFound];
      return;
    }
    var creation := qt.create(name);
    var report := ReportCreation(creation, qt);
    output := output + ["Found file"] + report;
  }

  /** The lines `runQml` writes once the component has been created from the file. */
  method ReportCreation(creation: Creation, qt: QtCalls) returns (output: seq<string>)
    ensures output == CreationLog(creation, qt)
  {
    var msgs := AppendComponentErrors([], creation.errors);
    assert msgs == ComponentMessages(creation.errors);
    if creation.item.None? {
      output := msgs + [ItemNotCreated];
      return;
    }
    output := msgs + ["Item created!!!", "info: " + qt.info(creation.item.value)];
  }

  const FileNotFound := "File NOT found"
  const ItemNotCreated := "Item not created"

  /** What `parseOptions` hands back for the created item; without an item the
      call fails and the returned text parses to an empty object. */
  function ParsedOptions(item: Option<Item>, options: JsonObject, qt: QtCalls): (r: JsonObject)
    ensures item.None? ==> r == map[]
    ensures item.Some? ==> r == qt.parseOptions(item.value, options)
  {
    if item.Some? then qt.parseOptions(item.value, options) else map[]
  }

  /** The lines `runQml` writes after the start-up lines, for the name it
      settled on: the file line, then either "File NOT found" alone or
      "Found file" and the creation report. The log ends with "Item not
      created" exactly when the file exists and no item was created. */
  function RunLog(name: string, qt: QtCalls): (r: seq<string>)
    ensures |r| >= 2 && r[0] == "File: " + name
    ensures !qt.fileExists(name) ==> |r| == 2 && r[1] == FileNotFound
    ensures qt.fileExists(name) ==> r[1] == "Found file" && r[2..] == CreationLog(qt.create(name), qt)
    ensures r[|r| - 1] == ItemNotCreated <==> qt.fileExists(name) && qt.create(name).item.None?
  {
    if !qt.fileExists(name) then
      assert FileNotFound[0] != ItemNotCreated[0];
      ["File: " + name, FileNotFound]
    else
      var tail := CreationLog(qt.create(name), qt);
      var r := ["File: " + name, "Found file"] + tail;
      assert r[2..] == tail && r[|r| - 1] == tail[|tail| - 1];
      r
  }

  /** One line per component error, in order, then either "Item not created"
      or "Item created!!!" and the item's `info` line. */
  function CreationLog(creation: Creation, qt: QtCalls): (r: seq<string>)
    ensures |r| == |creation.errors| + (if creation.item.None? then 1 else 2)
    ensures forall i :: 0 <= i < |creation.errors| ==> r[i] == ComponentErrorMessage(creation.errors[i])
    ensures creation.item.None? ==> r[|r| - 1] == ItemNotCreated
    ensures creation.item.Some? ==>
      r[|r| - 2..] == ["Item created!!!", "info: " + qt.info(creation.item.value)] && r[|r| - 1] != ItemNotCreated
  {
    ComponentMessagesEach(creation.errors);
    var msgs := ComponentMessages(creation.errors);
    if creation.item.None? then msgs + [ItemNotCreated]
    else
      var info := "info: " + qt.info(creation.item.value);
      assert info[0] != ItemNotCreated[0];
      var r := msgs + ["Item created!!!", info];
      assert r[|r| - 2..] == ["Item created!!!", info];
      r
  }

  /** Every component message is the message of the error at the same position. */
  lemma ComponentMessagesEach(errors: seq<QmlError>)
    ensures forall i :: 0 <= i < |errors| ==> ComponentMessages(errors)[i] == ComponentErrorMessage(errors[i])
  {
    forall i | 0 <= i < |errors|
      ensures ComponentMessages(errors)[i] == ComponentErrorMessage(errors[i])
    {
      ComponentMessagesAt(errors, i);
    }
  }

  /** `addError` on a result that records `msgs` records `msgs` and then `msg`. */
  method AddRecordedError(jsonResult: JsonObject, ghost msgs: seq<string>, msg: string) returns (result: JsonObject)
    requires ErrorsRecorded(jsonResult, msgs)
    ensures ErrorsRecorded(result, msgs + [msg])
  {
    result := AddError(jsonResult, msg);
    AddErrorAppends(jsonResult, msgs, msg, result);
  }

  /** The error-gathering part of `checkOptions` (with `hasError` clear): the
      missing file, the component errors and the missing item, all through
      `addError`, starting from an empty result. */
  method CollectErrors(qmlFile: string, qt: QtCalls) returns (jsonResult: JsonObject, item: Option<Item>)
    ensures ErrorsRecorded(jsonResult, CheckOptionsErrors(qt.fileExists(qmlFile), qt.create(qmlFile)))
    ensures item == qt.create(qmlFile).item
  {
    jsonResult := map[];
    ghost var head: seq<string> := if qt.fileExists(qmlFile) then [] else [FileNotFound];
    if !qt.fileExists(qmlFile) {
      jsonResult := AddRecordedError(jsonResult, [], FileNotFound);
      assert [] + [FileNotFound] == head;
    }

    var creation := qt.create(qmlFile);
    item := creation.item;
    jsonResult := AddComponentErrors(jsonResult, head, creation.errors);
    ghost var done := head + ComponentMessages(creation.errors);
    ghost var tail: seq<string> := if item.None? then [ItemNotCreated] else [];
    if item.None? {
      jsonResult := AddRecordedError(jsonResult, done, ItemNotCreated);
    } else {
      assert done + tail == done;
    }
    assert ErrorsRecorded(jsonResult, done + tail);
  }

  /** The component-error loop of `checkOptions`: one `addError` per error, in order. */
  method AddComponentErrors(jsonResult: JsonObject, ghost msgs: seq<string>, errors: seq<QmlError>)
    returns (result: JsonObject)
    requires ErrorsRecorded(jsonResult, msgs)
    ensures ErrorsRecorded(result, msgs + ComponentMessages(errors))
  {
    result := jsonResult;
    assert msgs + ComponentMessages(errors[..0]) == msgs;
    for k := 0 to |errors|
      invariant ErrorsRecorded(result, msgs + ComponentMessages(errors[..k]))
    {
      var m := ComponentErrorMessage(errors[k]);
      ghost var done := ComponentMessages(errors[..k]);
      result := AddRecordedError(result, msgs + done, m);
      ComponentMessagesSnoc(errors, k);
      SnocAssoc(msgs, done, m);
    }
    assert errors[..|errors|] == errors;
  }

  lemma SnocAssoc<T>(a: seq<T>, b: seq<T>, x: T)
    ensures a + (b + [x]) == (a + b) + [x]
  {
  }

  /** The component-error loop of `runQml`: one line per error, in order. */
  method AppendComponentErrors(output: seq<string>, errors: seq<QmlError>) returns (out: seq<string>)
    ensures out == output + ComponentMessages(errors)
  {
    out := output;
    for k := 0 to |errors|
      invariant out == output + ComponentMessages(errors[..k])
    {
      ComponentMessagesSnoc(errors, k);
      out := out + [ComponentErrorMessage(errors[k])];
    }
    assert errors[..|errors|] == errors;
  }
}
