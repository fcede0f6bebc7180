/** DB.SendEx: a Groonga command built from a command name and a map of options,
    each value quoted and escaped, up to the string handed to DB.Send
    (grngo.go:330-356, grn.go:168-193). */
module Commands {
  import opened Common
  import Strings

  datatype CommandError = InvalidName(name: string) | InvalidKey(key: string)

  /** A character a command name or an option key may hold: '_' or a lower-case letter. */
  predicate NameChar(c: char) {
    c == '_' || 'a' <= c <= 'z'
  }

  /** A command name or option key SendEx is meant to accept: not empty, and made
      of name characters only. */
  predicate ValidName(name: string) {
    name != "" && forall i :: 0 <= i < |name| ==> NameChar(name[i])
  }

  /** The check SendEx makes of a name: the empty name is refused, then each
      character until one that is not a name character. */
  method CheckName(name: string) returns (ok: bool)
    ensures ok <==> ValidName(name)
  {
    if name == "" {
      return false;
    }
    for i := 0 to |name|
      invariant forall j :: 0 <= j < i ==> NameChar(name[j])
    {
      if !NameChar(name[i]) {
        return false;
      }
    }
    return true;
  }

  /** The character test as the source writes it: not '_', below 'a' and above 'z'
      at once, which no character is. */
  predicate RefusedAsWritten(c: char) {
    c != '_' && c < 'a' && c > 'z'
  }

  predicate AcceptedAsWritten(name: string) {
    name != "" && forall i :: 0 <= i < |name| ==> !RefusedAsWritten(name[i])
  }

  /** The check of a name as written: the same loop with the test above. */
  method CheckNameAsWritten(name: string) returns (ok: bool)
    ensures ok <==> AcceptedAsWritten(name)
    ensures ok <==> name != ""
  {
    if name == "" {
      return false;
    }
    for i := 0 to |name|
      invariant forall j :: 0 <= j < i ==> !RefusedAsWritten(name[j])
    {
      if RefusedAsWritten(name[i]) {
        return false;
      }
    }
    return true;
  }

  /** As written, a name with a space passes the check, and the command built from
      it no longer reads back as that name: "a b" is read as the command "a"
      followed by text that is not an option. */
  lemma AsWrittenAcceptsSpace()
    ensures AcceptedAsWritten("a b") && !ValidName("a b")
    ensures ParseCommand(Command("a b", [])) == None
  {
    assert !NameChar("a b"[1]);
    var s := Command("a b", []);
    assert s == "a" + " b";
    ReadWordBefore("a", " b");
    assert !Strings.HasPrefix(" b", " --");
  }

  // ---- Escaping ----

  function EscapeChar(c: char): string {
    if c == '\\' then "\\\\" else if c == '\'' then "\\'" else [c]
  }

  /** Each character escaped on its own: a backslash before every backslash and
      every quote. */
  function EscapeEach(v: string): string {
    if v == [] then [] else EscapeChar(v[0]) + EscapeEach(v[1..])
  }

  /** The two strings.Replace passes of SendEx: backslashes doubled first, then
      quotes preceded by a backslash. */
  function Escape(v: string): string {
    Strings.ReplaceChar(Strings.ReplaceChar(v, '\\', "\\\\"), '\'', "\\'")
  }

  /** The two passes escape each character once: the backslashes the second pass
      adds are not doubled again. */
  lemma {:induction false} EscapeIsEscapeEach(v: string)
    ensures Escape(v) == EscapeEach(v)
  {
    if v != [] {
      var c := v[0];
      var first := if c == '\\' then "\\\\" else [c];
      assert Strings.ReplaceChar(v, '\\', "\\\\") == first + Strings.ReplaceChar(v[1..], '\\', "\\\\");
      Strings.ReplaceCharAppend(first, Strings.ReplaceChar(v[1..], '\\', "\\\\"), '\'', "\\'");
      if c == '\\' {
        assert Strings.ReplaceChar(first, '\'', "\\'") == "\\\\" by {
          assert first[1..] == "\\";
          assert first[1..][1..] == "";
        }
      } else {
        assert first[1..] == "";
      }
      EscapeIsEscapeEach(v[1..]);
    }
  }

  /** The value of a quoted option argument, read up to its closing quote, a
      backslash taking the next character literally; and what follows the quote. */
  function ReadQuoted(s: string): (r: Option<(string, string)>)
    ensures r.Some? ==> |r.value.1| < |s|
  {
    if s == [] then None
    else if s[0] == '\'' then Some(([], s[1..]))
    else if s[0] == '\\' then
      if |s| < 2 then None
      else match ReadQuoted(s[2..])
        case None => None
        case Some(p) => Some(([s[1]] + p.0, p.1))
    else match ReadQuoted(s[1..])
      case None => None
      case Some(p) => Some(([s[0]] + p.0, p.1))
  }

  /** An escaped value followed by the closing quote reads back as the value: no
      quote inside a value can end its argument early. */
  lemma {:induction false} ReadEscaped(v: string, rest: string)
    ensures ReadQuoted(EscapeEach(v) + "'" + rest) == Some((v, rest))
  {
    if v == [] {
      assert EscapeEach(v) + "'" + rest == ['\''] + rest;
    } else {
      var tail := EscapeEach(v[1..]) + "'" + rest;
      ReadEscaped(v[1..], rest);
      EscapeEachCons(v, rest);
      ReadEscapedChar(v[0], tail, (v[1..], rest));
      CharCons(v);
    }
  }

  lemma EscapeEachCons(v: string, rest: string)
    requires v != []
    ensures EscapeEach(v) + "'" + rest == EscapeChar(v[0]) + (EscapeEach(v[1..]) + "'" + rest)
  {
  }

  /** One escaped character in front of a quoted text reads back as that character. */
  lemma ReadEscapedChar(c: char, tail: string, p: (string, string))
    requires ReadQuoted(tail) == Some(p)
    ensures ReadQuoted(EscapeChar(c) + tail) == Some(([c] + p.0, p.1))
  {
    var s := EscapeChar(c) + tail;
    if c == '\\' || c == '\'' {
      assert s[2..] == tail;
    } else {
      assert s[1..] == tail;
    }
  }

  lemma CharCons(v: string)
    requires v != []
    ensures [v[0]] + v[1..] == v
  {
  }

  // ---- The command string ----

  /** fmt.Sprintf("--%s '%s'", key, value) with the escaped value. */
  function OptionPart(key: string, value: string): string {
    "--" + key + " '" + Escape(value) + "'"
  }

  function OptionParts(opts: seq<(string, string)>): (r: seq<string>)
    ensures |r| == |opts|
  {
    if opts == [] then [] else [OptionPart(opts[0].0, opts[0].1)] + OptionParts(opts[1..])
  }

  /** strings.Join of the name and the option parts, separated by spaces. */
  function Command(name: string, opts: seq<(string, string)>): string {
    Strings.Join([name] + OptionParts(opts), " ")
  }

  /** The options of a command, each preceded by its space. */
  function OptionsText(opts: seq<(string, string)>): string {
    if opts == [] then "" else " " + OptionPart(opts[0].0, opts[0].1) + OptionsText(opts[1..])
  }

  lemma {:induction false} JoinOptions(first: string, opts: seq<(string, string)>)
    ensures Strings.Join([first] + OptionParts(opts), " ") == first + OptionsText(opts)
    decreases |opts|
  {
    if opts != [] {
      var parts := [first] + OptionParts(opts);
      assert parts[1..] == [OptionPart(opts[0].0, opts[0].1)] + OptionParts(opts[1..]);
      JoinOptions(OptionPart(opts[0].0, opts[0].1), opts[1..]);
    } else {
      assert [first] + OptionParts(opts) == [first];
    }
  }

  // ---- Reading a command back ----

  /** The text up to the first space, and the rest from that space on. */
  function ReadWord(s: string): (r: (string, string))
    ensures r.0 + r.1 == s && ' ' !in r.0
  {
    var k := Strings.IndexOf(s, ' ');
    if k == -1 then (s, []) else (s[..k], s[k..])
  }

  lemma ReadWordBefore(a: string, b: string)
    requires ' ' !in a && (b == [] || b[0] == ' ')
    ensures ReadWord(a + b) == (a, b)
  {
    var s := a + b;
    if b != [] {
      IndexOfBefore(a, b);
      assert s[..|a|] == a && s[|a|..] == b;
    } else {
      assert s == a;
    }
  }

  lemma {:induction false} IndexOfBefore(a: string, b: string)
    requires ' ' !in a && b != [] && b[0] == ' '
    ensures Strings.IndexOf(a + b, ' ') == |a|
  {
    if a == [] {
      assert a + b == b;
    } else {
      assert (a + b)[0] == a[0] && (a + b)[1..] == a[1..] + b;
      IndexOfBefore(a[1..], b);
    }
  }

  /** The options of a command: each " --key 'value'" in turn. */
  function ParseOptions(s: string): Option<seq<(string, string)>>
    decreases |s|
  {
    if s == [] then Some([])
    else if !Strings.HasPrefix(s, " --") then None
    else
      var (key, rest) := ReadWord(s[3..]);
      if !Strings.HasPrefix(rest, " '") then None
      else match ReadQuoted(rest[2..])
        case None => None
        case Some(p) =>
          match ParseOptions(p.1)
          case None => None
          case Some(more) => Some([(key, p.0)] + more)
  }

  /** How Groonga reads a command: the name up to the first space, then the options. */
  function ParseCommand(s: string): Option<(string, seq<(string, string)>)> {
    var (name, rest) := ReadWord(s);
    match ParseOptions(rest)
    case None => None
    case Some(opts) => Some((name, opts))
  }

  /** ParseOptions on text that starts with one well-formed option. */
  lemma ParseOptionsUnfold(s: string, key: string, rest: string, value: string, after: string, more: seq<(string, string)>)
    requires Strings.HasPrefix(s, " --") && ReadWord(s[3..]) == (key, rest)
    requires Strings.HasPrefix(rest, " '") && ReadQuoted(rest[2..]) == Some((value, after))
    requires ParseOptions(after) == Some(more)
    ensures ParseOptions(s) == Some([(key, value)] + more)
  {
  }

  /** The text of one option followed by more text: the option mark, the key, then
      the opening quote of the escaped value. */
  lemma OptionTextShape(key: string, value: string, after: string)
    ensures var s := " " + OptionPart(key, value) + after;
      Strings.HasPrefix(s, " --") && s[3..] == key + (" '" + (EscapeEach(value) + "'" + after))
  {
    EscapeIsEscapeEach(value);
    var s := " " + OptionPart(key, value) + after;
    assert s == " --" + (key + (" '" + (EscapeEach(value) + "'" + after)));
  }

  lemma QuotedShape(quoted: string)
    ensures Strings.HasPrefix(" '" + quoted, " '") && (" '" + quoted)[2..] == quoted
  {
  }

  /** One option read back: its text followed by more text parses as the option
      followed by whatever that text parses as. */
  lemma ParseOptionStep(s: string, key: string, value: string, after: string, more: seq<(string, string)>)
    requires s == " " + OptionPart(key, value) + after
    requires ' ' !in key && ParseOptions(after) == Some(more)
    ensures ParseOptions(s) == Some([(key, value)] + more)
  {
    var quoted := EscapeEach(value) + "'" + after;
    var rest := " '" + quoted;
    OptionTextShape(key, value, after);
    ReadWordBefore(key, rest);
    QuotedShape(quoted);
    ReadEscaped(value, after);
    ParseOptionsUnfold(s, key, rest, value, after, more);
  }

  /** The options read back one at a time: if the text after the first option
      parses as the others, the whole text parses as all of them. */
  lemma ParseOptionsCons(key: string, value: string, tail: seq<(string, string)>)
    requires ' ' !in key && ParseOptions(OptionsText(tail)) == Some(tail)
    ensures ParseOptions(OptionsText([(key, value)] + tail)) == Some([(key, value)] + tail)
  {
    var opts := [(key, value)] + tail;
    assert opts[0] == (key, value) && opts[1..] == tail;
    ParseOptionStep(OptionsText(opts), key, value, OptionsText(tail), tail);
  }

  lemma {:induction false} ParseOptionsText(opts: seq<(string, string)>)
    requires forall i :: 0 <= i < |opts| ==> ' ' !in opts[i].0
    ensures ParseOptions(OptionsText(opts)) == Some(opts)
  {
    if opts != [] {
      var tail := opts[1..];
      assert forall i :: 0 <= i < |tail| ==> ' ' !in tail[i].0 by {
        assert forall i :: 0 <= i < |tail| ==> tail[i] == opts[i + 1];
      }
      ParseOptionsText(tail);
      ParseOptionsCons(opts[0].0, opts[0].1, tail);
      assert [(opts[0].0, opts[0].1)] + tail == opts;
    }
  }

  /** A command whose name and keys hold no space reads back as that name and those
      options, in order, with their values unescaped. */
  lemma CommandRoundTrip(name: string, opts: seq<(string, string)>)
    requires ' ' !in name && forall i :: 0 <= i < |opts| ==> ' ' !in opts[i].0
    ensures ParseCommand(Command(name, opts)) == Some((name, opts))
  {
    JoinOptions(name, opts);
    var text := OptionsText(opts);
    assert text == [] || text[0] == ' ';
    ReadWordBefore(name, text);
    ParseOptionsText(opts);
  }

  lemma ValidNameHasNoSpace(name: string)
    requires ValidName(name)
    ensures ' ' !in name
  {
    assert forall i :: 0 <= i < |name| ==> name[i] != ' ';
  }

  // ---- SendEx ----

  /** opts lists the entries of options, each key once. */
  ghost predicate Lists(opts: seq<(string, string)>, options: map<string, string>) {
    && (forall i :: 0 <= i < |opts| ==> opts[i].0 in options && options[opts[i].0] == opts[i].1)
    && (forall i, j :: 0 <= i < j < |opts| ==> opts[i].0 != opts[j].0)
    && (forall k :: k in options ==> exists i :: 0 <= i < |opts| && opts[i].0 == k)
  }

  /** What SendEx's loop has done once the keys left are keys: every option
      listed once, in the order chosen, with a valid key, and none of keys yet. */
  ghost predicate ListedExcept(opts: seq<(string, string)>, options: map<string, string>, keys: set<string>) {
    && keys <= options.Keys
    && (forall i :: 0 <= i < |opts| ==>
          && opts[i].0 in options && options[opts[i].0] == opts[i].1 && opts[i].0 !in keys && ValidName(opts[i].0))
    && (forall i, j :: 0 <= i < j < |opts| ==> opts[i].0 != opts[j].0)
    && (forall k :: k in options && k !in keys ==> exists i :: 0 <= i < |opts| && opts[i].0 == k)
  }

  lemma ListedStep(opts: seq<(string, string)>, options: map<string, string>, keys: set<string>, key: string)
    requires ListedExcept(opts, options, keys) && key in keys && ValidName(key)
    ensures ListedExcept(opts + [(key, options[key])], options, keys - {key})
  {
    var more := opts + [(key, options[key])];
    assert forall i :: 0 <= i < |opts| ==> more[i] == opts[i];
    assert more[|opts|] == (key, options[key]);
    forall k | k in options && k !in keys - {key}
      ensures exists i :: 0 <= i < |more| && more[i].0 == k
    {
      if k == key {
        assert more[|opts|].0 == k;
      } else {
        var i :| 0 <= i < |opts| && opts[i].0 == k;
        assert more[i].0 == k;
      }
    }
  }

  /** Once no key is left, the options chosen list the map, every key valid, and
      the command they make reads back as the name and those options. */
  lemma ListedDone(name: string, opts: seq<(string, string)>, options: map<string, string>)
    requires ValidName(name) && ListedExcept(opts, options, {})
    ensures Lists(opts, options) && forall k :: k in options ==> ValidName(k)
    ensures ParseCommand(Command(name, opts)) == Some((name, opts))
  {
    forall i | 0 <= i < |opts|
      ensures ' ' !in opts[i].0
    {
      ValidNameHasNoSpace(opts[i].0);
    }
    forall k | k in options
      ensures ValidName(k)
    {
      var i :| 0 <= i < |opts| && opts[i].0 == k;
    }
    ValidNameHasNoSpace(name);
    CommandRoundTrip(name, opts);
  }

  /** DB.SendEx up to the call of Send: the name and every key are checked, then one
      part per option is appended, in the unspecified order in which Go ranges over
      a map, and the parts are joined.  The result is a command that reads back as
      the name and the options. */
  method SendEx(name: string, options: map<string, string>) returns (r: Result<string, CommandError>)
    ensures r.Ok? <==> ValidName(name) && forall k :: k in options ==> ValidName(k)
    ensures !ValidName(name) ==> r == Err(InvalidName(name))
    ensures ValidName(name) && r.Err? ==> r.error.InvalidKey? && r.error.key in options && !ValidName(r.error.key)
    ensures r.Ok? ==> exists opts :: Lists(opts, options) && r.value == Command(name, opts)
    ensures r.Ok? ==> var p := ParseCommand(r.value); p.Some? && p.value.0 == name && Lists(p.value.1, options)
  {
    var ok := CheckName(name);
    if !ok {
      return Err(InvalidName(name));
    }
    var parts := [name];
    ghost var opts: seq<(string, string)> := [];
    var keys := options.Keys;
    while keys != {}
      invariant parts == [name] + OptionParts(opts)
      invariant ListedExcept(opts, options, keys)
      decreases keys
    {
      var key :| key in keys;
      var keyOk := CheckName(key);
      if !keyOk {
        return Err(InvalidKey(key));
      }
      var value := options[key];
      value := Strings.ReplaceChar(value, '\\', "\\\\");
      value := Strings.ReplaceChar(value, '\'', "\\'");
      parts := parts + ["--" + key + " '" + value + "'"];
      OptionPartsAppend(opts, (key, options[key]));
      ListedStep(opts, options, keys, key);
      opts := opts + [(key, options[key])];
      keys := keys - {key};
    }
    ListedDone(name, opts, options);
    r := Ok(Strings.Join(parts, " "));
    assert r.value == Command(name, opts);
  }

  lemma {:induction false} OptionPartsAppend(opts: seq<(string, string)>, o: (string, string))
    ensures OptionParts(opts + [o]) == OptionParts(opts) + [OptionPart(o.0, o.1)]
  {
    if opts == [] {
      assert opts + [o] == [o];
    } else {
      assert (opts + [o])[1..] == opts[1..] + [o];
      OptionPartsAppend(opts[1..], o);
    }
  }
}
