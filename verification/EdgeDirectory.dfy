/**
 * The edge agent's FreeSWITCH directory: one XML file per synced extension,
 * written only when its text differs, and files of users that central no
 * longer lists removed. The files are a map from name to text.
 */
module EdgeDirectory {
  import opened Common

  // ----- escaping -----

  function Escaped(c: char): string {
    if c == '&' then "&amp;"
    else if c == '<' then "&lt;"
    else if c == '>' then "&gt;"
    else if c == '"' then "&quot;"
    else [c]
  }

  function XmlEsc(s: string): string {
    if s == "" then "" else Escaped(s[0]) + XmlEsc(s[1..])
  }

  /** A character and the length of the text that stands for it. */
  datatype Symbol = Symbol(c: char, length: nat)

  /** The first character that text stands for: one of the five predefined entities of section 4.6 of XML 1.0, or itself. */
  function Head(s: string): (h: Symbol)
    requires s != ""
    ensures 1 <= h.length <= |s|
  {
    if "&amp;" <= s then Symbol('&', 5)
    else if "&lt;" <= s then Symbol('<', 4)
    else if "&gt;" <= s then Symbol('>', 4)
    else if "&quot;" <= s then Symbol('"', 6)
    else if "&apos;" <= s then Symbol('\'', 6)
    else Symbol(s[0], 1)
  }

  /** Reading attribute text back. */
  function Decoded(s: string): string
    decreases |s|
  {
    if s == "" then "" else [Head(s).c] + Decoded(s[Head(s).length..])
  }

  lemma HeadOfEscaped(c: char, rest: string)
    ensures Head(Escaped(c) + rest) == Symbol(c, |Escaped(c)|)
  {
    var s := Escaped(c) + rest;
    assert s[..|Escaped(c)|] == Escaped(c);
    assert s[0] == Escaped(c)[0];
    if s[0] == '&' {
      assert s[1] == Escaped(c)[1] && s[2] == Escaped(c)[2];
    }
  }

  lemma DecodeOne(c: char, rest: string)
    ensures Decoded(Escaped(c) + rest) == [c] + Decoded(rest)
  {
    HeadOfEscaped(c, rest);
    assert (Escaped(c) + rest)[|Escaped(c)|..] == rest;
  }

  /** Escaped text decodes to exactly what was escaped. */
  lemma {:induction false} EscapeRoundTrip(s: string)
    ensures Decoded(XmlEsc(s)) == s
  {
    if s != "" {
      EscapeRoundTrip(s[1..]);
      DecodeOne(s[0], XmlEsc(s[1..]));
      assert s == [s[0]] + s[1..];
    }
  }

  /** Escaped text cannot end an attribute. */
  lemma {:induction false} EscapedHasNoQuote(s: string)
    ensures '"' !in XmlEsc(s)
  {
    if s != "" {
      EscapedHasNoQuote(s[1..]);
      assert '"' !in Escaped(s[0]);
    }
  }

  /** The text at this point begins with the name of an entity. */
  ghost predicate AtEntity(s: string, i: nat) {
    i <= |s| && ("&amp;" <= s[i..] || "&lt;" <= s[i..] || "&gt;" <= s[i..] || "&quot;" <= s[i..])
  }

  /** Nothing in the text can be taken for markup. */
  ghost predicate WellFormed(s: string) {
    && '<' !in s && '>' !in s && '"' !in s
    && forall i :: 0 <= i < |s| && s[i] == '&' ==> AtEntity(s, i)
  }

  lemma EscapedCharWellFormed(c: char, rest: string)
    ensures var e := Escaped(c);
      && '<' !in e && '>' !in e && '"' !in e
      && (forall i :: 1 <= i < |e| ==> e[i] != '&')
      && (e[0] == '&' ==> AtEntity(e + rest, 0))
  {
    var e := Escaped(c);
    assert (e + rest)[0..] == e + rest && e <= e + rest;
  }

  lemma AtEntityLater(a: string, s: string, i: nat)
    requires AtEntity(s, i)
    ensures AtEntity(a + s, |a| + i)
  {
    assert (a + s)[|a| + i..] == s[i..];
  }

  /** Escaped text holds no markup: no brackets, no quotes, and an ampersand only where an entity begins. */
  lemma {:induction false} EscapedIsWellFormed(s: string)
    ensures WellFormed(XmlEsc(s))
  {
    if s != "" {
      var e, rest := Escaped(s[0]), XmlEsc(s[1..]);
      EscapedIsWellFormed(s[1..]);
      EscapedCharWellFormed(s[0], rest);
      forall i | 0 <= i < |e + rest| && (e + rest)[i] == '&' ensures AtEntity(e + rest, i) {
        if i >= |e| {
          AtEntityLater(e, rest, i - |e|);
        }
      }
    }
  }

  // ----- rendering -----

  datatype Extension = Extension(extension: string, password: string, vmPassword: string, callerIdNumber: string, name: string)

  const DEFAULT_PASSWORD: string := "$${default_password}"

  /** The values the user's file is rendered from, after the defaults are filled in. */
  datatype Shown = Shown(extension: string, password: string, vmPassword: string, name: string, callerId: string)

  function OrDefault(value: string, default: string): string {
    if value == "" then default else value
  }

  function ShownAs(e: Extension): Shown {
    Shown(e.extension,
          OrDefault(e.password, DEFAULT_PASSWORD),
          OrDefault(e.vmPassword, e.extension),
          OrDefault(e.name, "Extension " + e.extension),
          OrDefault(e.callerIdNumber, e.extension))
  }

  /** The fixed text of a user's file, between the values. */
  const USER_TEMPLATE: seq<string> := [
    ("<include>\n" + "  ") + "<user id=\"",
    "\"" + ((">\n" + "    <params>\n" + "      ") + "<param name=\"password\" value=\""),
    "\"" + (("/>\n" + "      ") + "<param name=\"vm-password\" value=\""),
    "\"" + (("/>\n" + "    </params>\n" + "    <variables>\n" +
             "      <variable name=\"user_context\" value=\"default\"/>\n" + "      ") +
            "<variable name=\"effective_caller_id_name\" value=\""),
    "\"" + (("/>\n" + "      ") + "<variable name=\"effective_caller_id_number\" value=\""),
    "\"" + (("/>\n" + "      ") + "<variable name=\"outbound_caller_id_number\" value=\""),
    "\"" + ("/>\n" + "    </variables>\n" + "  </user>\n" + "</include>\n")
  ]

  /** Template and values, alternating. */
  function Render(template: seq<string>, values: seq<string>): string
    requires |template| == |values| + 1
  {
    if values == [] then template[0] else template[0] + values[0] + Render(template[1..], values[1..])
  }

  /** A given password is escaped, the default one is written as it is. */
  function PasswordValue(password: string, default: string): string {
    if password == "" then default else XmlEsc(password)
  }

  function UserValues(e: Extension): seq<string> {
    var shown := ShownAs(e);
    [XmlEsc(e.extension), PasswordValue(e.password, DEFAULT_PASSWORD),
     XmlEsc(shown.vmPassword), XmlEsc(shown.name), XmlEsc(shown.callerId), XmlEsc(shown.callerId)]
  }

  function UserXml(e: Extension): string {
    Render(USER_TEMPLATE, UserValues(e))
  }

  /** Two quote-free texts, each followed by a quote, can be told apart. */
  lemma UpToQuote(a: string, x: string, b: string, y: string)
    requires '"' !in a && '"' !in b && x != "" && y != "" && x[0] == '"' == y[0]
    requires a + x == b + y
    ensures a == b && x == y
  {
    var s := a + x;
    assert s[|a|] == '"' && s[|b|] == '"';
    assert (forall i :: 0 <= i < |a| ==> s[i] == a[i]) && (forall i :: 0 <= i < |b| ==> s[i] == b[i]);
    assert |a| == |b|;
    assert a == s[..|a|] == b && x == s[|a|..] == y;
  }

  ghost predicate QuoteDelimited(template: seq<string>) {
    forall i :: 1 <= i < |template| ==> template[i] != "" && template[i][0] == '"'
  }

  ghost predicate QuoteFree(values: seq<string>) {
    forall i :: 0 <= i < |values| ==> '"' !in values[i]
  }

  lemma RenderStarts(template: seq<string>, values: seq<string>)
    requires |template| == |values| + 1 && template[0] != "" && template[0][0] == '"'
    ensures Render(template, values) != "" && Render(template, values)[0] == '"'
  {
  }

  /** A template whose values are delimited by quotes renders different quote-free values differently. */
  lemma {:induction false} RenderInjective(template: seq<string>, v: seq<string>, w: seq<string>)
    requires |template| == |v| + 1 && |v| == |w| && QuoteDelimited(template) && QuoteFree(v) && QuoteFree(w)
    requires Render(template, v) == Render(template, w)
    ensures v == w
  {
    if v != [] {
      var r, s := Render(template[1..], v[1..]), Render(template[1..], w[1..]);
      RenderStarts(template[1..], v[1..]);
      RenderStarts(template[1..], w[1..]);
      var t := template[0];
      assert t + v[0] + r == t + (v[0] + r) && t + w[0] + s == t + (w[0] + s);
      assert v[0] + r == (t + (v[0] + r))[|t|..] && w[0] + s == (t + (w[0] + s))[|t|..];
      UpToQuote(v[0], r, w[0], s);
      RenderInjective(template[1..], v[1..], w[1..]);
      assert v == [v[0]] + v[1..] && w == [w[0]] + w[1..];
    }
  }

  ghost predicate Plain(s: string) {
    forall i :: 0 <= i < |s| ==> s[i] != '&' && s[i] != '<' && s[i] != '>' && s[i] != '"'
  }

  lemma {:induction false} NothingToEscape(s: string)
    requires Plain(s)
    ensures XmlEsc(s) == s
  {
    if s != "" {
      NothingToEscape(s[1..]);
      assert s == [s[0]] + s[1..];
    }
  }

  lemma PasswordValueIsEscaped(password: string, default: string)
    requires Plain(default)
    ensures PasswordValue(password, default) == XmlEsc(OrDefault(password, default))
    ensures '"' !in PasswordValue(password, default)
  {
    NothingToEscape(default);
    EscapedHasNoQuote(password);
  }

  lemma DefaultPasswordPlain()
    ensures Plain(DEFAULT_PASSWORD)
  {
  }

  lemma TemplateIsDelimited()
    ensures QuoteDelimited(USER_TEMPLATE)
  {
    var t := USER_TEMPLATE;
    assert |t| == 7;
    assert t[1][0] == '"' && t[2][0] == '"' && t[3][0] == '"' && t[4][0] == '"' && t[5][0] == '"' && t[6][0] == '"';
  }

  /** The values are the escaped form of what is shown, also where the default password stands unescaped. */
  lemma ValuesAreEscaped(e: Extension)
    ensures var shown := ShownAs(e);
      UserValues(e) == [XmlEsc(shown.extension), XmlEsc(shown.password), XmlEsc(shown.vmPassword), XmlEsc(shown.name),
                        XmlEsc(shown.callerId), XmlEsc(shown.callerId)]
  {
    DefaultPasswordPlain();
    PasswordValueIsEscaped(e.password, DEFAULT_PASSWORD);
  }

  // ----- which value stands where -----

  ghost predicate Contains(s: string, part: string) {
    exists before: string, after: string :: s == before + part + after
  }

  ghost predicate EndsWith(s: string, end: string) {
    |end| <= |s| && s[|s| - |end|..] == end
  }

  lemma ContainsWithin(outer: string, a: string, s: string, part: string)
    requires Contains(s, part) && outer == a + s
    ensures Contains(outer, part)
  {
    var before, after :| s == before + part + after;
    assert outer == (a + before) + part + after;
  }

  /** A value stands between the end of the text before it and the start of the text after it. */
  lemma {:induction false} RenderPlaces(template: seq<string>, values: seq<string>, k: nat, caption: string)
    requires |template| == |values| + 1 && k < |values| && QuoteDelimited(template) && EndsWith(template[k], caption)
    ensures Contains(Render(template, values), caption + values[k] + "\"")
  {
    var rest := Render(template[1..], values[1..]);
    var all := Render(template, values);
    if k == 0 {
      var n := |template[0]| - |caption|;
      RenderStarts(template[1..], values[1..]);
      assert template[0] == template[0][..n] + caption;
      assert rest == "\"" + rest[1..];
      assert all == template[0][..n] + (caption + values[0] + "\"") + rest[1..];
    } else {
      RenderPlaces(template[1..], values[1..], k - 1, caption);
      assert all == (template[0] + values[0]) + rest;
      ContainsWithin(all, template[0] + values[0], rest, caption + values[k] + "\"");
    }
  }

  lemma EndsWithLast(a: string, b: string, end: string)
    ensures EndsWith(a + (b + end), end) && EndsWith(a + end, end)
  {
    var s := a + (b + end);
    assert s[|s| - |end|..] == end;
    assert (a + end)[|a + end| - |end|..] == end;
  }

  lemma TemplateCaptions()
    ensures |USER_TEMPLATE| == 7
    ensures EndsWith(USER_TEMPLATE[0], "<user id=\"")
    ensures EndsWith(USER_TEMPLATE[1], "<param name=\"password\" value=\"")
    ensures EndsWith(USER_TEMPLATE[2], "<param name=\"vm-password\" value=\"")
    ensures EndsWith(USER_TEMPLATE[3], "<variable name=\"effective_caller_id_name\" value=\"")
    ensures EndsWith(USER_TEMPLATE[4], "<variable name=\"effective_caller_id_number\" value=\"")
    ensures EndsWith(USER_TEMPLATE[5], "<variable name=\"outbound_caller_id_number\" value=\"")
  {
    EndsWithLast("<include>\n" + "  ", "", "<user id=\"");
    EndsWithLast("\"", ">\n" + "    <params>\n" + "      ", "<param name=\"password\" value=\"");
    EndsWithLast("\"", "/>\n" + "      ", "<param name=\"vm-password\" value=\"");
    EndsWithLast("\"", "/>\n" + "    </params>\n" + "    <variables>\n" +
                 "      <variable name=\"user_context\" value=\"default\"/>\n" + "      ",
                 "<variable name=\"effective_caller_id_name\" value=\"");
    EndsWithLast("\"", "/>\n" + "      ", "<variable name=\"effective_caller_id_number\" value=\"");
    EndsWithLast("\"", "/>\n" + "      ", "<variable name=\"outbound_caller_id_number\" value=\"");
  }

  /** Which value each parameter of a user's file shows, and what stands in for an empty one. */
  lemma FileSays(e: Extension)
    ensures var vm := if e.vmPassword == "" then e.extension else e.vmPassword;
      var name := if e.name == "" then "Extension " + e.extension else e.name;
      var number := if e.callerIdNumber == "" then e.extension else e.callerIdNumber;
      var password := if e.password == "" then "$${default_password}" else XmlEsc(e.password);
      && Contains(UserXml(e), "<user id=\"" + XmlEsc(e.extension) + "\"")
      && Contains(UserXml(e), "<param name=\"password\" value=\"" + password + "\"")
      && Contains(UserXml(e), "<param name=\"vm-password\" value=\"" + XmlEsc(vm) + "\"")
      && Contains(UserXml(e), "<variable name=\"effective_caller_id_name\" value=\"" + XmlEsc(name) + "\"")
      && Contains(UserXml(e), "<variable name=\"effective_caller_id_number\" value=\"" + XmlEsc(number) + "\"")
      && Contains(UserXml(e), "<variable name=\"outbound_caller_id_number\" value=\"" + XmlEsc(number) + "\"")
  {
    TemplateCaptions();
    TemplateIsDelimited();
    var v := UserValues(e);
    RenderPlaces(USER_TEMPLATE, v, 0, "<user id=\"");
    RenderPlaces(USER_TEMPLATE, v, 1, "<param name=\"password\" value=\"");
    RenderPlaces(USER_TEMPLATE, v, 2, "<param name=\"vm-password\" value=\"");
    RenderPlaces(USER_TEMPLATE, v, 3, "<variable name=\"effective_caller_id_name\" value=\"");
    RenderPlaces(USER_TEMPLATE, v, 4, "<variable name=\"effective_caller_id_number\" value=\"");
    RenderPlaces(USER_TEMPLATE, v, 5, "<variable name=\"outbound_caller_id_number\" value=\"");
  }

  // ----- telling users apart -----

  lemma EscapeInjective(s: string, t: string)
    requires XmlEsc(s) == XmlEsc(t)
    ensures s == t
  {
    EscapeRoundTrip(s);
    EscapeRoundTrip(t);
  }

  lemma UserValuesQuoteFree(e: Extension)
    ensures QuoteFree(UserValues(e))
  {
    var shown := ShownAs(e);
    EscapedHasNoQuote(e.extension);
    DefaultPasswordPlain();
    PasswordValueIsEscaped(e.password, DEFAULT_PASSWORD);
    EscapedHasNoQuote(shown.vmPassword);
    EscapedHasNoQuote(shown.name);
    EscapedHasNoQuote(shown.callerId);
  }

  lemma SameTextSameValues(e: Extension, f: Extension)
    requires UserXml(e) == UserXml(f)
    ensures UserValues(e) == UserValues(f)
  {
    UserValuesQuoteFree(e);
    UserValuesQuoteFree(f);
    TemplateIsDelimited();
    RenderInjective(USER_TEMPLATE, UserValues(e), UserValues(f));
  }

  lemma SameValuesSameUser(e: Extension, f: Extension)
    requires UserValues(e) == UserValues(f)
    ensures ShownAs(e) == ShownAs(f)
  {
    var v, w, x, y := UserValues(e), UserValues(f), ShownAs(e), ShownAs(f);
    ValuesAreEscaped(e);
    ValuesAreEscaped(f);
    assert v[0] == w[0] && v[1] == w[1] && v[2] == w[2] && v[3] == w[3] && v[4] == w[4];
    EscapeInjective(x.extension, y.extension);
    EscapeInjective(x.password, y.password);
    EscapeInjective(x.vmPassword, y.vmPassword);
    EscapeInjective(x.name, y.name);
    EscapeInjective(x.callerId, y.callerId);
  }

  /** Comparing the text of two users' files is an exact test for whether anything that is shown differs. */
  lemma SameTextIffSameUser(e: Extension, f: Extension)
    ensures UserXml(e) == UserXml(f) <==> ShownAs(e) == ShownAs(f)
  {
    if UserXml(e) == UserXml(f) {
      SameTextSameValues(e, f);
      SameValuesSameUser(e, f);
    }
    if ShownAs(e) == ShownAs(f) {
      ValuesAreEscaped(e);
      ValuesAreEscaped(f);
    }
  }
}
