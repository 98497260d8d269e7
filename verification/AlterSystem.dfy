/** Printing `ALTER SYSTEM SET name = 'value'` (internal/cluster/pgconfig.go) and reading it back as SQL does. */
module AlterSystem {
  import opened Base

  const PREFIX := "ALTER SYSTEM SET "
  const EQUALS := " = "
  const MAX_NAME_LENGTH := 64

  predicate NameChar(c: char) {
    'a' <= c <= 'z' || '0' <= c <= '9' || c == '_'
  }

  predicate ValidName(name: string) {
    0 < |name| <= MAX_NAME_LENGTH && forall i :: 0 <= i < |name| ==> NameChar(name[i])
  }

  /** A valid name has one to sixty-four characters, by their codes lower-case letters, digits or underscores. */
  lemma ValidNameIs(name: string)
    ensures ValidName(name) <==>
              && 1 <= |name| <= 64
              && forall i :: 0 <= i < |name| ==>
                   var code := name[i] as int; 97 <= code <= 122 || 48 <= code <= 57 || code == 95
  {
  }

  method IsValidParameterName(name: string) returns (ok: bool)
    ensures ok <==> ValidName(name)
  {
    if |name| == 0 || |name| > MAX_NAME_LENGTH {
      return false;
    }
    for i := 0 to |name|
      invariant forall j :: 0 <= j < i ==> NameChar(name[j])
    {
      if !NameChar(name[i]) {
        return false;
      }
    }
    return true;
  }

  /** `strings.ReplaceAll(value, "'", "''")`. */
  function Escape(value: string): string {
    if value == "" then ""
    else (if value[0] == '\'' then "''" else [value[0]]) + Escape(value[1..])
  }

  function Quote(value: string): string {
    "'" + Escape(value) + "'"
  }

  function Statement(name: string, value: string): string {
    PREFIX + name + EQUALS + Quote(value)
  }

  /** `applyParameter` up to the query it sends: the statement, or nothing for a name it refuses. */
  function Print(name: string, value: string): Option<string> {
    if ValidName(name) then Some(Statement(name, value)) else None
  }

  // ---------------------------------------------------------------- the SQL side
  //
  // A character string literal runs from a quote to the next quote that is not doubled; a doubled quote stands for one
  // quote (section 5.3 of ISO/IEC 9075-2; section 4.1.2.1 of the PostgreSQL manual).

  /** Reads the rest of a literal after its opening quote: the value and what follows the closing quote. */
  function LexLiteral(s: string): Option<(string, string)> {
    if s == "" then None
    else if s[0] != '\'' then
      (match LexLiteral(s[1..])
       case None => None
       case Some((v, rest)) => Some(([s[0]] + v, rest)))
    else if |s| >= 2 && s[1] == '\'' then
      (match LexLiteral(s[2..])
       case None => None
       case Some((v, rest)) => Some((['\''] + v, rest)))
    else Some(("", s[1..]))
  }

  /** The longest run of name characters at the front. */
  function LexName(s: string): (string, string) {
    if s != "" && NameChar(s[0]) then
      var (n, rest) := LexName(s[1..]);
      ([s[0]] + n, rest)
    else ("", s)
  }

  /** Accepts exactly one complete statement and returns the name and the value it sets. */
  function LexStatement(s: string): Option<(string, string)> {
    if !(PREFIX <= s) then None
    else
      var (name, rest) := LexName(s[|PREFIX|..]);
      if !(EQUALS + "'" <= rest) then None
      else
        match LexLiteral(rest[|EQUALS| + 1..])
        case None => None
        case Some((value, tail)) => if tail == "" && ValidName(name) then Some((name, value)) else None
  }

  lemma {:induction false} LiteralReadsBack(value: string, rest: string)
    requires rest == "" || rest[0] != '\''
    ensures LexLiteral(Escape(value) + "'" + rest) == Some((value, rest))
  {
    var s := Escape(value) + "'" + rest;
    if value == "" {
      assert s == "'" + rest;
    } else {
      LiteralReadsBack(value[1..], rest);
      var t := Escape(value[1..]) + "'" + rest;
      if value[0] == '\'' {
        assert s[0] == s[1] == '\'' && s[2..] == t;
        assert ['\''] + value[1..] == value;
      } else {
        assert s[0] == value[0] && s[1..] == t;
        assert [value[0]] + value[1..] == value;
      }
    }
  }

  lemma {:induction false} LiteralIsEscape(s: string)
    requires LexLiteral(s).Some?
    ensures var (v, rest) := LexLiteral(s).value; s == Escape(v) + "'" + rest
  {
    if s[0] != '\'' {
      LiteralIsEscape(s[1..]);
      var (v, rest) := LexLiteral(s[1..]).value;
      assert ([s[0]] + v)[1..] == v;
      assert s == [s[0]] + s[1..];
    } else if |s| >= 2 && s[1] == '\'' {
      LiteralIsEscape(s[2..]);
      var (v, rest) := LexLiteral(s[2..]).value;
      assert (['\''] + v)[1..] == v;
      assert s == "''" + s[2..];
    }
  }

  lemma {:induction false} NameReadsBack(name: string, rest: string)
    requires forall i :: 0 <= i < |name| ==> NameChar(name[i])
    requires rest == "" || !NameChar(rest[0])
    ensures LexName(name + rest) == (name, rest)
  {
    if name == "" {
      assert name + rest == rest;
    } else {
      NameReadsBack(name[1..], rest);
      assert (name + rest)[1..] == name[1..] + rest;
      assert [name[0]] + name[1..] == name;
    }
  }

  lemma {:induction false} NameSplits(s: string)
    ensures var (n, rest) := LexName(s); s == n + rest
  {
    if s != "" && NameChar(s[0]) {
      NameSplits(s[1..]);
    }
  }

  /** Every printed statement is consumed whole and sets exactly the given name to exactly the given value. */
  lemma PrintReadsBack(name: string, value: string)
    requires ValidName(name)
    ensures LexStatement(Statement(name, value)) == Some((name, value))
  {
    var s := Statement(name, value);
    var lit := Quote(value);
    assert s == PREFIX + (name + (EQUALS + lit));
    assert s[|PREFIX|..] == name + (EQUALS + lit);
    NameReadsBack(name, EQUALS + lit);
    LiteralReadsBack(value, "");
    assert (EQUALS + lit)[|EQUALS| + 1..] == Escape(value) + "'" + "";
  }

  /** The printer's range is exactly what the lexer accepts: nothing else reads as a setting. */
  lemma OnlyPrintedStatementsRead(s: string, name: string, value: string)
    ensures LexStatement(s) == Some((name, value)) <==> Print(name, value) == Some(s)
  {
    if LexStatement(s) == Some((name, value)) {
      var (n, rest) := LexName(s[|PREFIX|..]);
      NameSplits(s[|PREFIX|..]);
      LiteralIsEscape(rest[|EQUALS| + 1..]);
      assert s == PREFIX + (name + rest);
      assert rest == EQUALS + "'" + rest[|EQUALS| + 1..];
      assert rest == EQUALS + Quote(value);
      assert s == Statement(name, value);
    }
    if Print(name, value) == Some(s) {
      PrintReadsBack(name, value);
    }
  }

  /** Distinct settings print distinctly. */
  lemma PrintIsInjective(n1: string, v1: string, n2: string, v2: string)
    requires ValidName(n1) && ValidName(n2)
    requires Statement(n1, v1) == Statement(n2, v2)
    ensures n1 == n2 && v1 == v2
  {
    PrintReadsBack(n1, v1);
    PrintReadsBack(n2, v2);
  }
}
