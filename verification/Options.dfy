/** Option strings (src/config.rs): the comma splitter of `-o`, the unescaping of
    path values, and the colon splitter of `lowerdir`.

    Each loop of the source is a method, proved against a function on the characters
    that are still to be read. The round trips are lemmas about those functions. */
module Options {

  // ---- Escaping, as a caller who builds an option string must do it ----

  /** The characters `split_options` treats specially. */
  predicate Special(c: char) {
    c == '\\' || c == ',' || c == '"'
  }

  /** Backslash before every special character. */
  function Escape(v: string): string {
    if v == "" then ""
    else (if Special(v[0]) then ['\\', v[0]] else [v[0]]) + Escape(v[1..])
  }

  function EscapeAll(vs: seq<string>): (r: seq<string>)
    ensures |r| == |vs|
  {
    if vs == [] then [] else [Escape(vs[0])] + EscapeAll(vs[1..])
  }

  /** Backslash before every colon: the quoting of one path inside `lowerdir`. */
  function EscapeColons(v: string): string {
    if v == "" then ""
    else (if v[0] == ':' then ['\\', ':'] else [v[0]]) + EscapeColons(v[1..])
  }

  function EscapeColonsAll(vs: seq<string>): seq<string> {
    if vs == [] then [] else [EscapeColons(vs[0])] + EscapeColonsAll(vs[1..])
  }

  function Join(parts: seq<string>, sep: char): string {
    if parts == [] then ""
    else if |parts| == 1 then parts[0]
    else parts[0] + [sep] + Join(parts[1..], sep)
  }

  lemma Reassociate<T>(a: seq<T>, b: seq<T>, c: seq<T>)
    ensures a + (b + c) == a + b + c
  {}

  /** Both splitters drop a piece that is empty. */
  function Flush(current: string): seq<string> {
    if current == "" then [] else [current]
  }

  function NonEmpty(vs: seq<string>): (r: seq<string>)
    ensures |r| <= |vs|
    ensures |r| == |vs| <==> forall i :: 0 <= i < |vs| ==> vs[i] != ""
  {
    if vs == [] then [] else Flush(vs[0]) + NonEmpty(vs[1..])
  }

  // ---- split_options ----

  /** What `split_options` still produces when `rest` is unread, `current` is the piece
      being collected and `inQuotes` says whether a double quote is open. */
  function SplitFrom(rest: string, current: string, inQuotes: bool): seq<string>
    decreases |rest|
  {
    if rest == "" then Flush(current)
    else if rest[0] == '\\' then
      if |rest| > 1 then SplitFrom(rest[2..], current + rest[..2], inQuotes)
      else SplitFrom(rest[1..], current, inQuotes)
    else if rest[0] == '"' then SplitFrom(rest[1..], current + rest[..1], !inQuotes)
    else if rest[0] == ',' && !inQuotes then Flush(current) + SplitFrom(rest[1..], "", inQuotes)
    else SplitFrom(rest[1..], current + rest[..1], inQuotes)
  }

  method SplitOptions(s: string) returns (result: seq<string>)
    ensures result == SplitFrom(s, "", false)
  {
    result := [];
    var current := "";
    var inQuotes := false;
    var i := 0;
    while i < |s|
      invariant 0 <= i <= |s|
      invariant result + SplitFrom(s[i..], current, inQuotes) == SplitFrom(s, "", false)
    {
      var c := s[i];
      ghost var rest := s[i..];
      assert rest[1..] == s[i + 1..] && rest[..1] == [c];
      i := i + 1;
      if c == '\\' {
        if i < |s| {
          assert rest[2..] == s[i + 1..] && rest[..2] == [c, s[i]];
          assert current + [c] + [s[i]] == current + rest[..2];
          current := current + [c] + [s[i]];
          i := i + 1;
        }
      } else if c == '"' {
        inQuotes := !inQuotes;
        current := current + [c];
      } else if c == ',' && !inQuotes {
        Reassociate(result, Flush(current), SplitFrom(s[i..], "", inQuotes));
        if current != "" {
          result := result + [current];
          current := "";
        } else {
          assert result + Flush(current) == result;
        }
      } else {
        current := current + [c];
      }
    }
    if current != "" {
      result := result + [current];
    }
  }

  // ---- unescape_path ----

  function UnescapeFrom(rest: string): string
    decreases |rest|
  {
    if rest == "" then ""
    else if rest[0] == '\\' && |rest| > 1 then [rest[1]] + UnescapeFrom(rest[2..])
    else [rest[0]] + UnescapeFrom(rest[1..])
  }

  method UnescapePath(s: string) returns (result: string)
    ensures result == UnescapeFrom(s)
  {
    result := "";
    var i := 0;
    while i < |s|
      invariant 0 <= i <= |s|
      invariant result + UnescapeFrom(s[i..]) == UnescapeFrom(s)
    {
      var c := s[i];
      ghost var rest := s[i..];
      assert rest[1..] == s[i + 1..];
      i := i + 1;
      if c == '\\' {
        if i < |s| {
          assert rest[2..] == s[i + 1..];
          Reassociate(result, [s[i]], UnescapeFrom(s[i + 1..]));
          result := result + [s[i]];
          i := i + 1;
        } else {
          Reassociate(result, [c], UnescapeFrom(s[i..]));
          result := result + [c];
        }
      } else {
        Reassociate(result, [c], UnescapeFrom(s[i..]));
        result := result + [c];
      }
    }
  }

  // ---- parse_lowerdir ----

  function LowerdirFrom(rest: string, current: string): seq<string>
    decreases |rest|
  {
    if rest == "" then Flush(current)
    else if rest[0] == '\\' then
      if |rest| > 1 && rest[1] == ':' then LowerdirFrom(rest[2..], current + [':'])
      else LowerdirFrom(rest[1..], current + ['\\'])
    else if rest[0] == ':' then Flush(current) + LowerdirFrom(rest[1..], "")
    else LowerdirFrom(rest[1..], current + rest[..1])
  }

  method ParseLowerdir(lowerdir: string) returns (result: seq<string>)
    ensures result == LowerdirFrom(lowerdir, "")
  {
    result := [];
    var current := "";
    var i := 0;
    while i < |lowerdir|
      invariant 0 <= i <= |lowerdir|
      invariant result + LowerdirFrom(lowerdir[i..], current) == LowerdirFrom(lowerdir, "")
    {
      var c := lowerdir[i];
      ghost var rest := lowerdir[i..];
      assert rest[1..] == lowerdir[i + 1..] && rest[..1] == [c];
      i := i + 1;
      if c == '\\' {
        if i < |lowerdir| {
          if lowerdir[i] == ':' {
            assert rest[2..] == lowerdir[i + 1..];
            current := current + [':'];
            i := i + 1;
          } else {
            current := current + [c];
          }
        } else {
          current := current + [c];
        }
      } else if c == ':' {
        Reassociate(result, Flush(current), LowerdirFrom(lowerdir[i..], ""));
        if current != "" {
          result := result + [current];
          current := "";
        } else {
          assert result + Flush(current) == result;
        }
      } else {
        current := current + [c];
      }
    }
    if current != "" {
      result := result + [current];
    }
  }

  // ---- Round trips ----

  lemma {:induction false} UnescapeInvertsEscape(v: string)
    ensures UnescapeFrom(Escape(v)) == v
  {
    if v != "" {
      var e, tail := Escape(v), Escape(v[1..]);
      UnescapeInvertsEscape(v[1..]);
      if Special(v[0]) {
        assert e[2..] == tail;
      } else {
        assert e[1..] == tail;
      }
    }
  }

  lemma ReadPair(c: char, rest: string, current: string)
    ensures SplitFrom(['\\', c] + rest, current, false) == SplitFrom(rest, current + ['\\', c], false)
  {
    var s := ['\\', c] + rest;
    assert s[2..] == rest && s[..2] == ['\\', c];
  }

  lemma ReadPlain(c: char, rest: string, current: string)
    requires !Special(c)
    ensures SplitFrom([c] + rest, current, false) == SplitFrom(rest, current + [c], false)
  {
    var s := [c] + rest;
    assert s[1..] == rest && s[..1] == [c];
  }

  /** An escaped value is read as part of the current piece, whatever follows it. */
  lemma {:induction false} SplitReadsEscaped(v: string, tail: string, current: string)
    ensures SplitFrom(Escape(v) + tail, current, false) == SplitFrom(tail, current + Escape(v), false)
    decreases |v|
  {
    if v == "" {
      assert Escape(v) + tail == tail && current + Escape(v) == current;
    } else {
      var head := if Special(v[0]) then ['\\', v[0]] else [v[0]];
      var rec := Escape(v[1..]);
      Reassociate(head, rec, tail);
      Reassociate(current, head, rec);
      if Special(v[0]) {
        ReadPair(v[0], rec + tail, current);
      } else {
        ReadPlain(v[0], rec + tail, current);
      }
      SplitReadsEscaped(v[1..], tail, current + head);
    }
  }

  lemma EscapeEmpty(v: string)
    ensures Escape(v) == "" <==> v == ""
  {}

  /** Splitting the comma-join of escaped options gives the options back in order, except
      that empty ones disappear. */
  lemma {:induction false} SplitInvertsJoin(vs: seq<string>)
    ensures SplitFrom(Join(EscapeAll(vs), ','), "", false) == EscapeAll(NonEmpty(vs))
    decreases |vs|
  {
    if vs != [] {
      var first, others := vs[0], vs[1..];
      var e := EscapeAll(vs);
      EscapeEmpty(first);
      SplitInvertsJoin(others);
      assert e[1..] == EscapeAll(others);
      var tail := if others == [] then "" else "," + Join(EscapeAll(others), ',');
      assert Join(e, ',') == Escape(first) + tail;
      SplitReadsEscaped(first, tail, "");
      assert "" + Escape(first) == Escape(first);
      if others != [] {
        assert tail[1..] == Join(EscapeAll(others), ',');
      }
      assert EscapeAll(NonEmpty(vs)) ==
             (if first == "" then [] else [Escape(first)]) + EscapeAll(NonEmpty(others)) by {
        if first != "" {
          assert NonEmpty(vs)[1..] == NonEmpty(others);
        } else {
          assert NonEmpty(vs) == NonEmpty(others);
        }
      }
    }
  }

  /** The list itself comes back, escaped, exactly when no option is empty. */
  lemma SplitRoundTrip(vs: seq<string>)
    ensures SplitFrom(Join(EscapeAll(vs), ','), "", false) == EscapeAll(vs)
            <==> forall i :: 0 <= i < |vs| ==> vs[i] != ""
  {
    SplitInvertsJoin(vs);
    if forall i :: 0 <= i < |vs| ==> vs[i] != "" {
      NonEmptyKeepsAll(vs);
    }
  }

  lemma {:induction false} NonEmptyKeepsAll(vs: seq<string>)
    requires forall i :: 0 <= i < |vs| ==> vs[i] != ""
    ensures NonEmpty(vs) == vs
  {
    if vs != [] {
      NonEmptyKeepsAll(vs[1..]);
    }
  }

  /** The value of `key=value`: what follows the first equals sign. */
  function ValueOf(opt: string): string
    requires '=' in opt
  {
    if opt[0] == '=' then opt[1..] else ValueOf(opt[1..])
  }

  lemma {:induction false} ValueAfterKey(key: string, value: string)
    requires '=' !in key
    ensures ValueOf(key + "=" + value) == value
  {
    var opt := key + "=" + value;
    if key == "" {
      assert opt == ['='] + value;
    } else {
      ValueAfterKey(key[1..], value);
      assert opt[1..] == key[1..] + "=" + value;
    }
  }

  function KeyValues(keys: seq<string>, values: seq<string>): (r: seq<string>)
    requires |keys| == |values|
    ensures |r| == |keys|
    ensures forall i :: 0 <= i < |r| ==> r[i] == keys[i] + "=" + Escape(values[i])
  {
    if keys == [] then []
    else
      assert forall i :: 0 < i < |keys| ==> keys[i] == keys[1..][i - 1] && values[i] == values[1..][i - 1];
      [keys[0] + "=" + Escape(values[0])] + KeyValues(keys[1..], values[1..])
  }

  predicate PlainKey(key: string) {
    '=' !in key && forall c :: c in key ==> !Special(c)
  }

  lemma {:induction false} EscapeAfterPlainKey(key: string, value: string)
    requires forall c :: c in key ==> !Special(c)
    ensures Escape(key + "=" + value) == key + "=" + Escape(value)
  {
    if key == "" {
      assert key + "=" + value == ['='] + value;
      assert Escape(['='] + value) == ['='] + Escape(value);
    } else {
      var whole := key + "=" + value;
      assert whole[1..] == key[1..] + "=" + value && whole[0] == key[0];
      EscapeAfterPlainKey(key[1..], value);
    }
  }

  /** The whole `-o` string: options `key=value` whose values were escaped and joined with
      commas are split at the right commas, and unescaping each value recovers it. */
  lemma OptionStringRoundTrip(keys: seq<string>, values: seq<string>)
    requires |keys| == |values|
    requires forall i :: 0 <= i < |keys| ==> PlainKey(keys[i])
    ensures var opts := SplitFrom(Join(KeyValues(keys, values), ','), "", false);
            && opts == KeyValues(keys, values)
            && forall i :: 0 <= i < |keys| ==>
                 '=' in opts[i] && UnescapeFrom(ValueOf(opts[i])) == values[i]
  {
    var plain := seq(|keys|, i requires 0 <= i < |keys| => keys[i] + "=" + values[i]);
    EscapeAllIsKeyValues(keys, values, plain);
    SplitRoundTrip(plain);
    forall i | 0 <= i < |keys|
      ensures '=' in KeyValues(keys, values)[i]
      ensures UnescapeFrom(ValueOf(KeyValues(keys, values)[i])) == values[i]
    {
      var opt := KeyValues(keys, values)[i];
      assert opt[|keys[i]|] == '=';
      ValueAfterKey(keys[i], Escape(values[i]));
      UnescapeInvertsEscape(values[i]);
    }
  }

  lemma {:induction false} EscapeAllIsKeyValues(keys: seq<string>, values: seq<string>, plain: seq<string>)
    requires |keys| == |values| == |plain|
    requires forall i :: 0 <= i < |keys| ==> PlainKey(keys[i]) && plain[i] == keys[i] + "=" + values[i]
    ensures EscapeAll(plain) == KeyValues(keys, values)
  {
    if keys != [] {
      EscapeAfterPlainKey(keys[0], values[0]);
      forall i | 0 <= i < |keys| - 1
        ensures PlainKey(keys[1..][i]) && plain[1..][i] == keys[1..][i] + "=" + values[1..][i]
      {
        assert keys[1..][i] == keys[i + 1];
      }
      EscapeAllIsKeyValues(keys[1..], values[1..], plain[1..]);
    }
  }

  // ---- The splitter and the unescaping, position by position ----

  /** The character is the second one of a pair that a backslash starts. */
  predicate IsEscaped(s: string, i: nat)
    requires i <= |s|
  {
    i > 0 && s[i - 1] == '\\' && !IsEscaped(s, i - 1)
  }

  /** How many double quotes before the position are not escaped. */
  function QuotesBefore(s: string, i: nat): nat
    requires i <= |s|
  {
    if i == 0 then 0
    else QuotesBefore(s, i - 1) + if s[i - 1] == '"' && !IsEscaped(s, i - 1) then 1 else 0
  }

  /** A comma separates if it is not escaped and the quotes before it are paired. */
  predicate Separates(s: string, i: nat)
    requires i < |s|
  {
    s[i] == ',' && !IsEscaped(s, i) && QuotesBefore(s, i) % 2 == 0
  }

  /** A backslash that has nothing to escape. */
  predicate Dangles(s: string, i: nat)
    requires i < |s|
  {
    i == |s| - 1 && s[i] == '\\' && !IsEscaped(s, i)
  }

  /** The pieces between the separators from `start` on, none of which is before `i`; empty ones and a
      backslash that dangles are left out. */
  function Pieces(s: string, start: nat, i: nat): seq<string>
    requires start <= i <= |s|
    decreases |s| - i
  {
    if i == |s| || Dangles(s, i) then Flush(s[start..i])
    else if Separates(s, i) then Flush(s[start..i]) + Pieces(s, i + 1, i + 1)
    else Pieces(s, start, i + 1)
  }

  lemma Slices(s: string, start: nat, i: nat, k: nat)
    requires start <= i <= k <= |s|
    ensures s[i..][..k - i] == s[i..k] && s[i..][k - i..] == s[k..] && s[start..i] + s[i..k] == s[start..k]
  {}

  lemma {:induction false} SplitIsPieces(s: string, start: nat, i: nat)
    requires start <= i <= |s| && !IsEscaped(s, i)
    ensures SplitFrom(s[i..], s[start..i], QuotesBefore(s, i) % 2 == 1) == Pieces(s, start, i)
    decreases |s| - i
  {
    if i < |s| {
      var rest := s[i..];
      Slices(s, start, i, i + 1);
      if s[i] == '\\' {
        if i + 1 < |s| {
          Slices(s, start, i, i + 2);
          assert IsEscaped(s, i + 1) && !IsEscaped(s, i + 2);
          SplitIsPieces(s, start, i + 2);
        } else {
          assert rest[1..] == "";
        }
      } else if Separates(s, i) {
        assert s[i + 1..i + 1] == "" && QuotesBefore(s, i + 1) == QuotesBefore(s, i);
        SplitIsPieces(s, i + 1, i + 1);
      } else {
        SplitIsPieces(s, start, i + 1);
      }
    }
  }

  /** On any string the splitter cuts at the commas that separate, and nowhere else. */
  lemma SplitCutsAtSeparators(s: string)
    ensures SplitFrom(s, "", false) == Pieces(s, 0, 0)
  {
    assert s[0..] == s && s[0..0] == "";
    SplitIsPieces(s, 0, 0);
  }

  /** All characters from `i` on but the backslashes that escape one. */
  function Unescaped(s: string, i: nat): string
    requires i <= |s|
    decreases |s| - i
  {
    if i == |s| then ""
    else if s[i] == '\\' && !IsEscaped(s, i) && !Dangles(s, i) then Unescaped(s, i + 1)
    else [s[i]] + Unescaped(s, i + 1)
  }

  lemma {:induction false} UnescapeFromIs(s: string, i: nat)
    requires i <= |s| && !IsEscaped(s, i)
    ensures UnescapeFrom(s[i..]) == Unescaped(s, i)
    decreases |s| - i
  {
    if i < |s| {
      var rest := s[i..];
      assert rest[1..] == s[i + 1..];
      if s[i] == '\\' && i + 1 < |s| {
        assert rest[2..] == s[i + 2..];
        assert IsEscaped(s, i + 1) && !IsEscaped(s, i + 2);
        UnescapeFromIs(s, i + 2);
      } else {
        assert i + 1 == |s| || !IsEscaped(s, i + 1);
        if i + 1 < |s| {
          UnescapeFromIs(s, i + 1);
        } else {
          assert UnescapeFrom(rest[1..]) == "";
        }
      }
    }
  }

  /** On any string unescaping takes away the backslashes that escape a character, and nothing else. */
  lemma UnescapeDropsEscapes(s: string)
    ensures UnescapeFrom(s) == Unescaped(s, 0)
  {
    assert s[0..] == s;
    UnescapeFromIs(s, 0);
  }

  // ---- Quoted values ----

  /** An option as a caller may write it: escaped, or with its value between double quotes. */
  datatype Setting = Escaped(text: string) | Quoted(key: string, value: string)

  function Written(o: Setting): string {
    match o
    case Escaped(text) => Escape(text)
    case Quoted(key, value) => Escape(key) + "\"" + value + "\""
  }

  function AllWritten(os: seq<Setting>): (r: seq<string>)
    ensures |r| == |os|
  {
    if os == [] then [] else [Written(os[0])] + AllWritten(os[1..])
  }

  /** Between quotes anything may stand, commas too, but a quote or a backslash. */
  predicate Quotable(o: Setting) {
    o.Quoted? ==> forall c :: c in o.value ==> c != '"' && c != '\\'
  }

  lemma {:induction false} SplitReadsQuoted(v: string, tail: string, current: string)
    requires forall c :: c in v ==> c != '"' && c != '\\'
    ensures SplitFrom(v + tail, current, true) == SplitFrom(tail, current + v, true)
    decreases |v|
  {
    if v == "" {
      assert v + tail == tail && current + v == current;
    } else {
      var s := v + tail;
      assert v[0] in v && forall c :: c in v[1..] ==> c in v;
      assert s[1..] == v[1..] + tail && s[..1] == [v[0]] && current + [v[0]] + v[1..] == current + v;
      SplitReadsQuoted(v[1..], tail, current + [v[0]]);
    }
  }

  lemma ReadQuote(rest: string, current: string, inQuotes: bool)
    ensures SplitFrom("\"" + rest, current, inQuotes) == SplitFrom(rest, current + "\"", !inQuotes)
  {
    var s := "\"" + rest;
    assert s[1..] == rest && s[..1] == "\"";
  }

  /** An option is read as part of the current piece, whatever follows it. */
  lemma SplitReadsOption(o: Setting, tail: string, current: string)
    requires Quotable(o)
    ensures SplitFrom(Written(o) + tail, current, false) == SplitFrom(tail, current + Written(o), false)
  {
    match o
    case Escaped(text) => SplitReadsEscaped(text, tail, current);
    case Quoted(key, value) =>
      var k, q := Escape(key), "\"";
      assert Written(o) + tail == k + (q + (value + (q + tail)));
      SplitReadsEscaped(key, q + (value + (q + tail)), current);
      ReadQuote(value + (q + tail), current + k, false);
      SplitReadsQuoted(value, q + tail, current + k + q);
      ReadQuote(tail, current + k + q + value, true);
      assert current + k + q + value + q == current + Written(o);
  }

  lemma SplitEnds(rest: string, current: string)
    ensures SplitFrom("", current, false) == Flush(current)
    ensures SplitFrom("," + rest, current, false) == Flush(current) + SplitFrom(rest, "", false)
  {
    assert ("," + rest)[1..] == rest;
  }

  /** A list of options, some escaped and some quoted, comes back from its comma-join, in order and as
      written, but for empty ones. */
  lemma {:induction false} SplitInvertsQuotedJoin(os: seq<Setting>)
    requires forall i :: 0 <= i < |os| ==> Quotable(os[i])
    ensures SplitFrom(Join(AllWritten(os), ','), "", false) == NonEmpty(AllWritten(os))
    decreases |os|
  {
    SplitEnds("", "");
    if os != [] {
      hide SplitFrom;
      hide Written;
      var first, others, written := os[0], os[1..], AllWritten(os);
      SplitInvertsQuotedJoin(others);
      assert written[1..] == AllWritten(others);
      var tail := if others == [] then "" else "," + Join(AllWritten(others), ',');
      assert Join(written, ',') == Written(first) + tail;
      SplitReadsOption(first, tail, "");
      assert "" + Written(first) == Written(first);
      SplitEnds(Join(AllWritten(others), ','), Written(first));
    }
  }

  lemma {:induction false} UnescapeKeepsPlain(v: string)
    requires forall c :: c in v ==> c != '\\'
    ensures UnescapeFrom(v) == v
  {
    if v != "" {
      assert v[0] in v && forall c :: c in v[1..] ==> c in v;
      UnescapeKeepsPlain(v[1..]);
    }
  }

  /** The quotes keep the value together and stay in it: nothing takes them away. */
  lemma QuotesStayInTheValue(key: string, value: string)
    requires PlainKey(key) && Quotable(Quoted(key + "=", value))
    ensures var o := Written(Quoted(key + "=", value)); '=' in o && UnescapeFrom(ValueOf(o)) == "\"" + value + "\""
  {
    var q := "\"" + value + "\"";
    EscapeAfterPlainKey(key, "");
    assert key + "=" + "" == key + "=" && key + "=" + Escape("") == key + "=";
    assert Written(Quoted(key + "=", value)) == key + "=" + q;
    assert (key + "=" + q)[|key|] == '=';
    ValueAfterKey(key, q);
    UnescapeKeepsPlain(q);
  }

  predicate EndsInBackslash(v: string) {
    v != "" && v[|v| - 1] == '\\'
  }

  /** Reading a colon-escaped path: it joins the current piece as it was before escaping,
      unless it ends in a backslash that would capture a following colon. */
  lemma ReadEscapedColon(rest: string, current: string)
    ensures LowerdirFrom(['\\', ':'] + rest, current) == LowerdirFrom(rest, current + [':'])
  {
    var s := ['\\', ':'] + rest;
    assert s[2..] == rest;
  }

  lemma ReadPathChar(c: char, rest: string, current: string)
    requires c != ':' && (c == '\\' ==> rest == "" || rest[0] != ':')
    ensures LowerdirFrom([c] + rest, current) == LowerdirFrom(rest, current + [c])
  {
    var s := [c] + rest;
    assert s[1..] == rest && s[..1] == [c];
  }

  lemma {:induction false} LowerdirReadsEscaped(v: string, tail: string, current: string)
    requires EndsInBackslash(v) ==> tail == "" || tail[0] != ':'
    ensures LowerdirFrom(EscapeColons(v) + tail, current) == LowerdirFrom(tail, current + v)
    decreases |v|
  {
    if v == "" {
      assert EscapeColons(v) + tail == tail && current + v == current;
    } else {
      var rec := EscapeColons(v[1..]);
      var head := if v[0] == ':' then ['\\', ':'] else [v[0]];
      Reassociate(head, rec, tail);
      Reassociate(current, [v[0]], v[1..]);
      assert [v[0]] + v[1..] == v;
      assert v[1..] != "" ==> EndsInBackslash(v) == EndsInBackslash(v[1..]);
      LowerdirReadsEscaped(v[1..], tail, current + [v[0]]);
      if v[0] == ':' {
        ReadEscapedColon(rec + tail, current);
      } else {
        ReadPathChar(v[0], rec + tail, current);
      }
    }
  }

  /** What `parse_lowerdir` makes of a colon-escaped, colon-joined list: a path that ends in
      a backslash turns the separator after it into a colon of its own, and empty paths vanish. */
  function Fused(ps: seq<string>): (r: seq<string>)
    ensures |r| <= |ps|
    decreases |ps|
  {
    if ps == [] then []
    else if |ps| == 1 then Flush(ps[0])
    else if EndsInBackslash(ps[0]) then
      Fused([ps[0][..|ps[0]| - 1] + ":" + ps[1]] + ps[2..])
    else Flush(ps[0]) + Fused(ps[1..])
  }

  lemma JoinEscaped(ps: seq<string>)
    requires |ps| > 1
    ensures Join(EscapeColonsAll(ps), ':') == EscapeColons(ps[0]) + (":" + Join(EscapeColonsAll(ps[1..]), ':'))
  {
    assert EscapeColonsAll(ps)[1..] == EscapeColonsAll(ps[1..]);
    Reassociate(EscapeColons(ps[0]), ":", Join(EscapeColonsAll(ps[1..]), ':'));
  }

  lemma LowerdirOfOne(current: string, p: string)
    ensures LowerdirFrom(EscapeColons(p), current) == Flush(current + p)
  {
    assert EscapeColons(p) + "" == EscapeColons(p);
    LowerdirReadsEscaped(p, "", current);
  }

  /** `current` stands for what was read of the first path. */
  lemma {:induction false} LowerdirOfJoin(current: string, ps: seq<string>)
    requires ps != [] && !EndsInBackslash(current)
    ensures LowerdirFrom(Join(EscapeColonsAll(ps), ':'), current) == Fused([current + ps[0]] + ps[1..])
    decreases |ps|
  {
    var first, others := ps[0], ps[1..];
    if others == [] {
      LowerdirOfOne(current, first);
      assert [current + first] + others == [current + first];
      assert Join(EscapeColonsAll(ps), ':') == EscapeColons(first);
    } else {
      var joined := Join(EscapeColonsAll(others), ':');
      JoinEscaped(ps);
      if EndsInBackslash(first) {
        LowerdirOfJoin(current + first[..|first| - 1] + ":", others);
        LowerdirFusesNext(current, first, others, joined);
      } else {
        LowerdirOfJoin("", others);
        assert "" + others[0] == others[0] && [others[0]] + others[1..] == others;
        LowerdirKeepsNext(current, first, others, joined);
      }
    }
  }

  /** The step of `LowerdirOfJoin` for a path that leaves the separator alone. */
  lemma LowerdirKeepsNext(current: string, first: string, others: seq<string>, joined: string)
    requires !EndsInBackslash(first) && !EndsInBackslash(current) && others != []
    ensures LowerdirFrom(EscapeColons(first) + (":" + joined), current)
            == Flush(current + first) + LowerdirFrom(joined, "")
    ensures Fused([current + first] + others) == Flush(current + first) + Fused(others)
  {
    var tail := ":" + joined;
    assert tail[1..] == joined;
    LowerdirReadsEscaped(first, tail, current);
    var ps := [current + first] + others;
    assert ps[1..] == others;
  }

  /** The step of `LowerdirOfJoin` for a path whose last backslash captures the separator. */
  lemma LowerdirFusesNext(current: string, first: string, others: seq<string>, joined: string)
    requires EndsInBackslash(first) && others != []
    ensures var cut := first[..|first| - 1];
            && LowerdirFrom(EscapeColons(first) + (":" + joined), current)
               == LowerdirFrom(joined, current + cut + ":")
            && Fused([current + first] + others) == Fused([current + cut + ":" + others[0]] + others[1..])
  {
    var cut := first[..|first| - 1];
    LowerdirReadsCapture(first, cut, joined, current);
    var glued := current + first;
    assert glued[..|glued| - 1] == current + cut;
    FusedStep(glued, others);
  }

  lemma LowerdirReadsCapture(first: string, cut: string, joined: string, current: string)
    requires EndsInBackslash(first) && cut == first[..|first| - 1]
    ensures LowerdirFrom(EscapeColons(first) + (":" + joined), current)
            == LowerdirFrom(joined, current + cut + ":")
  {
    var tail := "\\:" + joined;
    CutBackslash(first);
    assert EscapeColons(first) + (":" + joined) == EscapeColons(cut) + tail;
    LowerdirReadsEscaped(cut, tail, current);
    assert tail[0] == '\\' && tail[1] == ':' && tail[2..] == joined;
  }

  lemma FusedStep(glued: string, others: seq<string>)
    requires EndsInBackslash(glued) && others != []
    ensures Fused([glued] + others) == Fused([glued[..|glued| - 1] + ":" + others[0]] + others[1..])
  {
    var ps := [glued] + others;
    assert ps[0] == glued && ps[1] == others[0] && ps[2..] == others[1..];
  }

  lemma {:induction false} CutBackslash(v: string)
    requires EndsInBackslash(v)
    ensures EscapeColons(v) == EscapeColons(v[..|v| - 1]) + "\\"
  {
    var cut := v[..|v| - 1];
    if cut == "" {
      assert v == "\\" && EscapeColons("") == "";
    } else {
      assert cut[1..] == v[1..][..|v[1..]| - 1];
      CutBackslash(v[1..]);
    }
  }

  /** `parse_lowerdir` on any colon-escaped, colon-joined list of paths. */
  lemma LowerdirInvertsJoin(ps: seq<string>)
    ensures LowerdirFrom(Join(EscapeColonsAll(ps), ':'), "") == Fused(ps)
  {
    if ps != [] {
      LowerdirOfJoin("", ps);
      assert "" + ps[0] == ps[0];
      assert [ps[0]] + ps[1..] == ps;
    }
  }

  /** No path is empty, and no path but the last ends in a backslash. */
  predicate Separable(ps: seq<string>) {
    && (forall i :: 0 <= i < |ps| ==> ps[i] != "")
    && (forall i :: 0 <= i < |ps| - 1 ==> !EndsInBackslash(ps[i]))
  }

  /** The list comes back exactly when it is separable. Paths without any backslash are a
      special case; a backslash elsewhere in a path does no harm. */
  lemma LowerdirRoundTrip(ps: seq<string>)
    ensures LowerdirFrom(Join(EscapeColonsAll(ps), ':'), "") == ps <==> Separable(ps)
  {
    LowerdirInvertsJoin(ps);
    FusedKeepsSeparable(ps);
  }

  lemma {:induction false} FusedKeepsSeparable(ps: seq<string>)
    ensures Separable(ps) ==> Fused(ps) == ps
    ensures !Separable(ps) ==> |Fused(ps)| < |ps|
    decreases |ps|
  {
    if |ps| > 1 && !EndsInBackslash(ps[0]) {
      var others := ps[1..];
      FusedKeepsSeparable(others);
      assert forall i :: 0 <= i < |others| ==> others[i] == ps[i + 1];
      if ps[0] != "" && Separable(others) {
        forall i | 0 <= i < |ps| - 1
          ensures !EndsInBackslash(ps[i])
        {
          assert i > 0 ==> ps[i] == others[i - 1];
        }
        assert Separable(ps);
      }
    }
  }
}
