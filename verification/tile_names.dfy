/**
 * Tile names and the line format of the tile registry.
 *
 * A processed tile is recorded by its name "{z}_{x}_{y}" (decimal integers
 * as Python's `str.format` writes them), one name per line of `tiles.txt`,
 * each written as `name + "\n"` and read back in text mode (universal
 * newlines) with `readlines()` followed by `line[:-1]`.
 */
module TileNames {
  import opened Base
  import opened Tiles

  /* ---------------- decimal integers ---------------- */

  function DigitChar(d: int): (ch: char)
    requires 0 <= d < 10
    ensures '0' <= ch <= '9' && ch as int - '0' as int == d
  {
    (d + '0' as int) as char
  }

  predicate IsDigits(s: string) {
    forall i :: 0 <= i < |s| ==> '0' <= s[i] <= '9'
  }

  /** Decimal digits of `n`, most significant first, without leading zeros. */
  function NatToString(n: nat): string
    decreases n
  {
    if n < 10 then [DigitChar(n)] else NatToString(n / 10) + [DigitChar(n % 10)]
  }

  /** How Python formats an integer: an optional minus sign, then the digits. */
  function IntToString(n: int): string {
    if n < 0 then "-" + NatToString(-n) else NatToString(n)
  }

  function ParseNat(s: string): int
    decreases |s|
  {
    if s == [] then 0 else ParseNat(s[..|s| - 1]) * 10 + (s[|s| - 1] as int - '0' as int)
  }

  function ParseInt(s: string): int {
    if |s| > 0 && s[0] == '-' then -ParseNat(s[1..]) else ParseNat(s)
  }

  lemma {:induction false} NatToStringDigits(n: nat)
    ensures |NatToString(n)| > 0 && IsDigits(NatToString(n))
    ensures ParseNat(NatToString(n)) == n
    decreases n
  {
    if n >= 10 {
      NatToStringDigits(n / 10);
      var s := NatToString(n);
      assert s[..|s| - 1] == NatToString(n / 10);
    }
  }

  /** Formatting an integer and parsing it back gives the integer; the text is digits and at most a leading '-'. */
  lemma IntToStringRoundTrip(n: int)
    ensures ParseInt(IntToString(n)) == n
    ensures var s := IntToString(n); |s| > 0 && forall i :: 0 <= i < |s| ==> ('0' <= s[i] <= '9' || (i == 0 && s[i] == '-'))
  {
    if n < 0 {
      NatToStringDigits(-n);
      assert IntToString(n)[1..] == NatToString(-n);
    } else {
      NatToStringDigits(n);
    }
  }

  /* ---------------- tile names ---------------- */

  /** `"{z}_{x}_{y}".format(z=zoom_level, x=tms_x, y=tms_y)` */
  function TileName(t: Tile): string {
    IntToString(t.zoom) + "_" + IntToString(t.x) + "_" + IntToString(t.y)
  }

  /** `s.split(sep)`: the pieces between occurrences of `sep`; always at least one. */
  function Split(s: string, sep: char): (parts: seq<string>)
    ensures |parts| >= 1
    decreases |s|
  {
    if s == [] then [""]
    else
      var rest := Split(s[1..], sep);
      if s[0] == sep then [""] + rest else [[s[0]] + rest[0]] + rest[1..]
  }

  lemma {:induction false} SplitPiece(a: string, sep: char, b: string)
    requires sep !in a
    ensures Split(a + [sep] + b, sep) == [a] + Split(b, sep)
    decreases |a|
  {
    if a == [] {
      assert a + [sep] + b == [sep] + b;
      assert ([sep] + b)[1..] == b;
    } else {
      SplitPiece(a[1..], sep, b);
      assert (a + [sep] + b)[1..] == a[1..] + [sep] + b;
      assert [a[0]] + a[1..] == a;
    }
  }

  lemma {:induction false} SplitWhole(a: string, sep: char)
    requires sep !in a
    ensures Split(a, sep) == [a]
    decreases |a|
  {
    if a != [] {
      SplitWhole(a[1..], sep);
      assert [a[0]] + a[1..] == a;
    }
  }

  /** Reads a tile back from its name; `None` unless the name has exactly three '_'-separated fields. */
  function ParseTileName(s: string): Option<Tile> {
    var parts := Split(s, '_');
    if |parts| != 3 then None else Some(Tile(ParseInt(parts[0]), ParseInt(parts[1]), ParseInt(parts[2])))
  }

  /** A tile name determines its tile. */
  lemma TileNameRoundTrip(t: Tile)
    ensures ParseTileName(TileName(t)) == Some(t)
  {
    var z, x, y := IntToString(t.zoom), IntToString(t.x), IntToString(t.y);
    IntToStringRoundTrip(t.zoom);
    IntToStringRoundTrip(t.x);
    IntToStringRoundTrip(t.y);
    assert TileName(t) == z + ['_'] + (x + ['_'] + y);
    SplitPiece(z, '_', x + ['_'] + y);
    SplitPiece(x, '_', y);
    SplitWhole(y, '_');
  }

  /** Distinct tiles have distinct names. */
  lemma TileNameInjective(s: Tile, t: Tile)
    ensures TileName(s) == TileName(t) ==> s == t
  {
    TileNameRoundTrip(s);
    TileNameRoundTrip(t);
  }

  /** A tile name never contains a line break, so one name fits on one registry line. */
  lemma TileNameHasNoNewline(t: Tile)
    ensures '\n' !in TileName(t) && '\r' !in TileName(t)
  {
    IntToStringRoundTrip(t.zoom);
    IntToStringRoundTrip(t.x);
    IntToStringRoundTrip(t.y);
  }

  /* ---------------- the registry file's line format ---------------- */

  /** The file text after writing `"{}\n".format(name)` for each name in turn. */
  function Serialize(names: seq<string>): string {
    if names == [] then "" else names[0] + "\n" + Serialize(names[1..])
  }

  /**
   * Universal newlines, as a file opened in text mode with the default
   * `newline=None` is read: "\r\n" and a lone '\r' both become '\n'.
   */
  function Translate(text: string): (out: string)
    ensures '\r' !in out
    decreases |text|
  {
    if text == [] then []
    else if text[0] == '\r' then "\n" + Translate(if |text| > 1 && text[1] == '\n' then text[2..] else text[1..])
    else [text[0]] + Translate(text[1..])
  }

  /** The lines of `text`, each keeping its '\n'; a last unterminated line is kept as it is. */
  function Lines(text: string): (lines: seq<string>)
    ensures forall i :: 0 <= i < |lines| ==> |lines[i]| > 0
    decreases |text|
  {
    if text == [] then []
    else if text[0] == '\n' then ["\n"] + Lines(text[1..])
    else
      var rest := Lines(text[1..]);
      if rest == [] then [text] else [[text[0]] + rest[0]] + rest[1..]
  }

  /** The lines joined back together. */
  function Concat(lines: seq<string>): string {
    if lines == [] then "" else lines[0] + Concat(lines[1..])
  }

  /** The lines of `text` join back to `text`. */
  lemma {:induction false} LinesJoin(text: string)
    ensures Concat(Lines(text)) == text
    decreases |text|
  {
    if text != [] {
      var rest := Lines(text[1..]);
      LinesJoin(text[1..]);
      if text[0] == '\n' {
        assert Lines(text)[1..] == rest;
      } else if rest != [] {
        assert Lines(text)[1..] == rest[1..];
        assert Concat(rest) == rest[0] + Concat(rest[1..]);
      }
      assert text == [text[0]] + text[1..];
    }
  }

  /** Every line but the last ends in '\n', and no line has a '\n' before its end. */
  predicate BrokenAtNewlines(lines: seq<string>) {
    && (forall i :: 0 <= i < |lines| - 1 ==> |lines[i]| > 0 && lines[i][|lines[i]| - 1] == '\n')
    && (forall i, j :: 0 <= i < |lines| && 0 <= j < |lines[i]| - 1 ==> lines[i][j] != '\n')
  }

  /** `Lines` breaks the text exactly after each '\n'. */
  lemma {:induction false} LinesBreaks(text: string)
    ensures BrokenAtNewlines(Lines(text))
    decreases |text|
  {
    if text != [] {
      var rest := Lines(text[1..]);
      LinesBreaks(text[1..]);
      var lines := Lines(text);
      if text[0] == '\n' {
        assert lines == ["\n"] + rest;
        forall i | 0 <= i < |lines| - 1 ensures lines[i][|lines[i]| - 1] == '\n' {
          if i > 0 {
            assert lines[i] == rest[i - 1];
          }
        }
        forall i, j | 0 <= i < |lines| && 0 <= j < |lines[i]| - 1 ensures lines[i][j] != '\n' {
          assert lines[i] == rest[i - 1];
          assert rest[i - 1][j] != '\n';
        }
      } else if rest != [] {
        assert lines == [[text[0]] + rest[0]] + rest[1..];
        forall i | 0 <= i < |lines| - 1 ensures lines[i][|lines[i]| - 1] == '\n' {
          if i > 0 {
            assert lines[i] == rest[i];
          } else {
            assert lines[0][|lines[0]| - 1] == rest[0][|rest[0]| - 1];
          }
        }
        forall i, j | 0 <= i < |lines| && 0 <= j < |lines[i]| - 1 ensures lines[i][j] != '\n' {
          if i > 0 {
            assert lines[i] == rest[i];
            assert rest[i][j] != '\n';
          } else if j > 0 {
            assert lines[0][j] == rest[0][j - 1];
            assert rest[0][j - 1] != '\n';
          }
        }
      }
    }
  }

  /** `readlines()` on a file opened in text mode: newlines translated, then cut into lines. */
  function ReadLines(text: string): seq<string> {
    Lines(Translate(text))
  }

  /** `line[:-1]`: all but the last character ("" stays ""). */
  function DropLast(line: string): string {
    if line == [] then line else line[..|line| - 1]
  }

  /** `list(map(lambda l: l[:-1], f.readlines()))`: each line loses its last character, its '\n' when it has one. */
  function LoadRegistry(text: string): (names: seq<string>)
    ensures |names| == |ReadLines(text)|
    ensures forall i :: 0 <= i < |names| ==> names[i] <= ReadLines(text)[i] && |names[i]| + 1 == |ReadLines(text)[i]|
  {
    seq(|ReadLines(text)|, i requires 0 <= i < |ReadLines(text)| => DropLast(ReadLines(text)[i]))
  }

  lemma {:induction false} LinesLine(name: string, text: string)
    requires '\n' !in name
    ensures Lines(name + "\n" + text) == [name + "\n"] + Lines(text)
    decreases |name|
  {
    if name == [] {
      assert name + "\n" + text == ['\n'] + text;
      assert (['\n'] + text)[1..] == text;
    } else {
      LinesLine(name[1..], text);
      assert (name + "\n" + text)[1..] == name[1..] + "\n" + text;
      assert [name[0]] + (name[1..] + "\n") == name + "\n";
    }
  }

  /** Text without '\r' is untouched by newline translation. */
  lemma {:induction false} TranslatePlain(plain: string, text: string)
    requires '\r' !in plain
    ensures Translate(plain + text) == plain + Translate(text)
    decreases |plain|
  {
    if plain != [] {
      TranslatePlain(plain[1..], text);
      assert (plain + text)[1..] == plain[1..] + text;
      assert [plain[0]] + plain[1..] == plain;
    } else {
      assert plain + text == text;
    }
  }

  /** A name without line breaks, written with '\n', reads back as one whole line. */
  lemma ReadLinesLine(name: string, text: string)
    requires '\n' !in name && '\r' !in name
    ensures ReadLines(name + "\n" + text) == [name + "\n"] + ReadLines(text)
  {
    TranslatePlain(name + "\n", text);
    assert Translate(name + "\n" + text) == name + "\n" + Translate(text);
    LinesLine(name, Translate(text));
  }

  /** Appending lines to the file appends their serialisations (the file is opened in append mode). */
  lemma {:induction false} SerializeAppend(a: seq<string>, b: seq<string>)
    ensures Serialize(a + b) == Serialize(a) + Serialize(b)
    decreases |a|
  {
    if a != [] {
      assert (a + b)[0] == a[0];
      assert (a + b)[1..] == a[1..] + b;
      SerializeAppend(a[1..], b);
    } else {
      assert a + b == b;
    }
  }

  /** Writing names with a trailing "\n" and reading them back with `[:-1]` gives the same names, when none holds a line break. */
  lemma {:induction false} RegistryRoundTrip(names: seq<string>)
    requires forall i :: 0 <= i < |names| ==> '\n' !in names[i] && '\r' !in names[i]
    ensures LoadRegistry(Serialize(names)) == names
    decreases |names|
  {
    if names != [] {
      RegistryRoundTrip(names[1..]);
      ReadLinesLine(names[0], Serialize(names[1..]));
      var lines := ReadLines(Serialize(names));
      assert lines == [names[0] + "\n"] + ReadLines(Serialize(names[1..]));
      assert DropLast(names[0] + "\n") == names[0];
      var loaded := LoadRegistry(Serialize(names));
      forall i | 0 <= i < |names| ensures loaded[i] == names[i] {
        if i > 0 {
          assert lines[i] == ReadLines(Serialize(names[1..]))[i - 1];
          assert LoadRegistry(Serialize(names[1..]))[i - 1] == names[1..][i - 1];
        }
      }
    }
  }
}
