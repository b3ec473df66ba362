/** The quoted strings and lists of the settings file of `wslkit disk` (internal/disk/config.go).
    Strings are sequences of Unicode characters. */
module Toml {
  import opened Text

  /* ---- quoted strings ---- */

  function EscapedChar(c: char): string {
    if c == '\\' || c == '"' then ['\\', c] else [c]
  }

  function Escaped(s: string): string {
    if s == "" then "" else EscapedChar(s[0]) + Escaped(s[1..])
  }

  function Quoted(s: string): string {
    "\"" + Escaped(s) + "\""
  }

  function Unescaped(b: string): string {
    if b == "" then ""
    else if b[0] == '\\' && |b| > 1 then [b[1]] + Unescaped(b[2..])
    else [b[0]] + Unescaped(b[1..])
  }

  function Unquoted(s: string): Option<string> {
    if |s| < 2 || !StartsWith(s, '"') || !EndsWith(s, '"') then None
    else Some(Unescaped(s[1..|s| - 1]))
  }

  lemma {:induction false} EscapedAppend(a: string, b: string)
    ensures Escaped(a + b) == Escaped(a) + Escaped(b)
  {
    if a == "" {
      assert a + b == b;
    } else {
      assert (a + b)[1..] == a[1..] + b;
      EscapedAppend(a[1..], b);
    }
  }

  lemma {:induction false} EscapeUndone(s: string)
    ensures Unescaped(Escaped(s)) == s
  {
    if s != "" {
      EscapeUndone(s[1..]);
      var e := Escaped(s);
      if s[0] == '\\' || s[0] == '"' {
        assert e[2..] == Escaped(s[1..]);
      } else {
        assert e[1..] == Escaped(s[1..]);
      }
      assert [s[0]] + s[1..] == s;
    }
  }

  lemma EscapedSnoc(s: string, c: char)
    ensures Escaped(s + [c]) == Escaped(s) + EscapedChar(c)
  {
    EscapedAppend(s, [c]);
    assert Escaped([c]) == EscapedChar(c) + Escaped("");
  }

  /** unquote(quote(s)) is s, for every string. */
  lemma QuoteUndone(s: string)
    ensures Unquoted(Quoted(s)) == Some(s)
  {
    EscapeUndone(s);
    assert Quoted(s)[1..|Quoted(s)| - 1] == Escaped(s);
  }

  method Quote(s: string) returns (q: string)
    ensures q == Quoted(s)
  {
    assert s[..0] == "" && Escaped("") == "";
    hide Escaped;
    var b := "\"";
    for i := 0 to |s|
      invariant b == "\"" + Escaped(s[..i])
    {
      assert s[..i + 1] == s[..i] + [s[i]];
      EscapedSnoc(s[..i], s[i]);
      if s[i] == '\\' || s[i] == '"' {
        b := b + "\\";
      }
      b := b + [s[i]];
    }
    assert s[..|s|] == s;
    q := b + "\"";
  }

  /** The next character, and whether it was escaped. */
  lemma UnescapeNext(body: string, i: nat)
    requires i < |body|
    ensures if body[i] == '\\' && i + 1 < |body|
            then Unescaped(body[i..]) == [body[i + 1]] + Unescaped(body[i + 2..])
            else Unescaped(body[i..]) == [body[i]] + Unescaped(body[i + 1..])
  {
    var rest := body[i..];
    assert rest[1..] == body[i + 1..];
    assert i + 1 < |body| ==> rest[2..] == body[i + 2..];
  }

  method Unescape(body: string) returns (b: string)
    ensures b == Unescaped(body)
  {
    assert Unescaped("") == "";
    hide Unescaped;
    b := "";
    var i := 0;
    assert body[0..] == body && body[|body|..] == "";
    while i < |body|
      invariant 0 <= i <= |body|
      invariant Unescaped(body) == b + Unescaped(body[i..])
    {
      UnescapeNext(body, i);
      if body[i] == '\\' && i + 1 < |body| {
        i := i + 1;
      }
      b := b + [body[i]];
      i := i + 1;
    }
  }

  method Unquote(s: string) returns (r: Option<string>)
    ensures r == Unquoted(s)
  {
    if |s| < 2 || !StartsWith(s, '"') || !EndsWith(s, '"') {
      return None;
    }
    var b := Unescape(s[1..|s| - 1]);
    r := Some(b);
  }

  /* ---- lists ---- */

  /** The items of the rest of a list, with the scanner inside or outside a quoted string and `cur`
      already read of the current item. */
  function Items(s: string, inQuote: bool, escaped: bool, cur: string): seq<string> {
    if s == "" then (if TrimSpace(cur) != "" then [cur] else [])
    else
      var r, rest := s[0], s[1..];
      if escaped then Items(rest, inQuote, false, cur + [r])
      else if r == '\\' && inQuote then Items(rest, inQuote, true, cur + [r])
      else if r == '"' then Items(rest, !inQuote, false, cur + [r])
      else if r == ',' && !inQuote then [cur] + Items(rest, inQuote, false, "")
      else Items(rest, inQuote, false, cur + [r])
  }

  method SplitTOMLList(s: string) returns (out: seq<string>)
    ensures out == Items(s, false, false, "")
  {
    out := [];
    var cur, inQuote, escaped := "", false, false;
    for i := 0 to |s|
      invariant Items(s, false, false, "") == out + Items(s[i..], inQuote, escaped, cur)
    {
      var r := s[i];
      assert s[i..][1..] == s[i + 1..];
      if escaped {
        cur := cur + [r];
        escaped := false;
      } else if r == '\\' && inQuote {
        cur := cur + [r];
        escaped := true;
      } else if r == '"' {
        inQuote := !inQuote;
        cur := cur + [r];
      } else if r == ',' && !inQuote {
        out := out + [cur];
        cur := "";
      } else {
        cur := cur + [r];
      }
    }
    if TrimSpace(cur) != "" {
      out := out + [cur];
    }
  }

  /** How the strings of a list are written. */
  function Listed(ds: seq<string>): string {
    if ds == [] then ""
    else if |ds| == 1 then Quoted(ds[0])
    else Quoted(ds[0]) + ", " + Listed(ds[1..])
  }

  lemma ItemsSkipChar(c: char, rest: string, cur: string)
    ensures Items(EscapedChar(c) + rest, true, false, cur) == Items(rest, true, false, cur + EscapedChar(c))
  {
    var t := EscapedChar(c) + rest;
    if c == '\\' || c == '"' {
      var u := [c] + rest;
      assert t[0] == '\\' && t[1..] == u && u[0] == c && u[1..] == rest;
      assert Items(u, true, true, cur + ['\\']) == Items(rest, true, false, cur + ['\\'] + [c]);
      assert cur + ['\\'] + [c] == cur + EscapedChar(c);
    } else {
      assert t[0] == c && t[1..] == rest;
    }
  }

  /** A quoted string is read as a whole, whatever is in it. */
  lemma {:induction false} ItemsSkipEscaped(s: string, rest: string, cur: string)
    ensures Items(Escaped(s) + rest, true, false, cur) == Items(rest, true, false, cur + Escaped(s))
  {
    if s == "" {
      assert Escaped(s) + rest == rest && cur + Escaped(s) == cur;
    } else {
      var e, tail := EscapedChar(s[0]), Escaped(s[1..]);
      assert Escaped(s) + rest == e + (tail + rest);
      assert cur + e + tail == cur + Escaped(s);
      hide Items, EscapedChar, Escaped;
      ItemsSkipChar(s[0], tail + rest, cur);
      ItemsSkipEscaped(s[1..], rest, cur + e);
    }
  }

  lemma ItemsSkipQuoted(s: string, rest: string, cur: string)
    ensures Items(Quoted(s) + rest, false, false, cur) == Items(rest, false, false, cur + Quoted(s))
  {
    var t := Quoted(s) + rest;
    assert t[0] == '"' && t[1..] == Escaped(s) + ("\"" + rest);
    ItemsSkipEscaped(s, "\"" + rest, cur + "\"");
    assert ("\"" + rest)[1..] == rest;
    assert cur + "\"" + Escaped(s) + "\"" == cur + Quoted(s);
  }

  /** The split finds the strings of a written list again, one by one, with the space after the comma. */
  lemma {:induction false} SplitFindsItems(ds: seq<string>, cur: string)
    requires ds != [] && (cur == "" || cur == " ")
    ensures var items := Items(Listed(ds), false, false, cur);
            && |items| == |ds|
            && forall i :: 0 <= i < |ds| ==> items[i] == (if i == 0 then cur else " ") + Quoted(ds[i])
  {
    if |ds| == 1 {
      assert Listed(ds) == Quoted(ds[0]) + "";
      ItemsSkipQuoted(ds[0], "", cur);
      var item := cur + Quoted(ds[0]);
      NotBlank(item);
    } else {
      var rest := ", " + Listed(ds[1..]);
      assert Listed(ds) == Quoted(ds[0]) + rest;
      ItemsSkipQuoted(ds[0], rest, cur);
      assert rest[1..] == " " + Listed(ds[1..]) && (" " + Listed(ds[1..]))[1..] == Listed(ds[1..]);
      assert "" + [' '] == " ";
      SplitFindsItems(ds[1..], " ");
    }
  }

  lemma NotBlank(s: string)
    requires s != "" && s[|s| - 1] == '"'
    ensures TrimSpace(s) != ""
  {
    var i := TrimLeftIs(s);
    assert i < |s| by {
      if i == |s| {
        LastStays(s);
      }
    }
  }

  /* ---- values ---- */

  /** The strings of a list, after those in `parts`. */
  function UnquotedAll(parts: seq<string>, items: seq<string>): Option<seq<string>>
    decreases items
  {
    if items == [] then Some(parts)
    else
      var s := Unquoted(TrimSpace(items[0]));
      if s.Some? then UnquotedAll(parts + [s.value], items[1..]) else None
  }

  function TomlValue(v: string): Option<string> {
    if StartsWith(v, '[') then
      if !EndsWith(v, ']') then None
      else
        var inner := TrimSpace(v[1..|v| - 1]);
        if inner == "" then Some("")
        else
          var parts := UnquotedAll([], Items(inner, false, false, ""));
          if parts.Some? then Some(Join(parts.value, ';')) else None
    else if StartsWith(v, '"') then Unquoted(v)
    else Some(v)
  }

  method UnquoteAll(items: seq<string>) returns (r: Option<seq<string>>)
    ensures r == UnquotedAll([], items)
  {
    var parts := [];
    for i := 0 to |items|
      invariant UnquotedAll([], items) == UnquotedAll(parts, items[i..])
    {
      assert items[i..][1..] == items[i + 1..];
      var s := Unquote(TrimSpace(items[i]));
      if s.None? {
        return None;
      }
      parts := parts + [s.value];
    }
    r := Some(parts);
  }

  method ParseTOMLValue(v: string) returns (r: Option<string>)
    ensures r == TomlValue(v)
  {
    if StartsWith(v, '[') {
      if !EndsWith(v, ']') {
        return None;
      }
      var inner := TrimSpace(v[1..|v| - 1]);
      if inner == "" {
        return Some("");
      }
      var items := SplitTOMLList(inner);
      var parts := UnquoteAll(items);
      r := if parts.Some? then Some(Join(parts.value, ';')) else None;
    } else if StartsWith(v, '"') {
      r := Unquote(v);
    } else {
      r := Some(v);
    }
  }

  lemma {:induction false} AllUnquoted(parts: seq<string>, items: seq<string>, ds: seq<string>)
    requires |items| == |ds|
    requires forall i :: 0 <= i < |ds| ==> items[i] == Quoted(ds[i]) || items[i] == " " + Quoted(ds[i])
    ensures UnquotedAll(parts, items) == Some(parts + ds)
    decreases items
  {
    if ds == [] {
      assert parts + ds == parts;
    } else {
      AllUnquoted(parts + [ds[0]], items[1..], ds[1..]);
      QuotedTrimmed(ds[0]);
      TrimmedStays(Quoted(ds[0]));
      SpacesGo(Quoted(ds[0]));
      QuoteUndone(ds[0]);
      assert parts + [ds[0]] + ds[1..] == parts + ds;
    }
  }

  lemma QuotedTrimmed(s: string)
    ensures Trimmed(Quoted(s)) && StartsWith(Quoted(s), '"') && EndsWith(Quoted(s), '"')
  {
  }

  lemma ListedTrimmed(ds: seq<string>)
    requires ds != []
    ensures Trimmed(Listed(ds)) && StartsWith(Listed(ds), '"') && EndsWith(Listed(ds), '"')
  {
    if |ds| > 1 {
      ListedTrimmed(ds[1..]);
    }
  }

  /** A written list reads back as its strings, joined. */
  lemma ListReadsBack(ds: seq<string>)
    ensures TomlValue("[" + Listed(ds) + "]") == Some(Join(ds, ';'))
  {
    var inner := Listed(ds);
    if ds != [] {
      ListedTrimmed(ds);
      TrimmedStays(inner);
      ItemsReadBack(ds);
    }
    hide Items, UnquotedAll, Join, TrimSpace, Unquoted, Listed;
    Bracketed(inner);
    assert TrimSpace("") == "" && Listed([]) == "" && Join([], ';') == "" by { NothingListed(); }
  }

  /** A text in brackets is read as a list. */
  lemma Bracketed(inner: string)
    ensures TomlValue("[" + inner + "]")
            == if TrimSpace(inner) == "" then Some("")
               else
                 var parts := UnquotedAll([], Items(TrimSpace(inner), false, false, ""));
                 if parts.Some? then Some(Join(parts.value, ';')) else None
  {
    hide Items, UnquotedAll, Join, TrimSpace, Unquoted;
    var v := "[" + inner + "]";
    assert v[0] == '[' && v[|v| - 1] == ']' && v[1..|v| - 1] == inner;
  }

  lemma NothingListed()
    ensures TrimSpace("") == "" && Listed([]) == "" && Join([], ';') == ""
  {
  }

  lemma ItemsReadBack(ds: seq<string>)
    requires ds != []
    ensures UnquotedAll([], Items(Listed(ds), false, false, "")) == Some(ds)
  {
    SplitFindsItems(ds, "");
    hide Listed, Quoted, UnquotedAll;
    var items := Items(Listed(ds), false, false, "");
    assert items[0] == "" + Quoted(ds[0]) == Quoted(ds[0]);
    AllUnquoted([], items, ds);
    assert [] + ds == ds;
  }
}
