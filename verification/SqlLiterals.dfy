/** The INSERT statements a SQL restore prints, and how PostgreSQL or SQLite reads them back: character string literals
    by section 5.3 of ISO/IEC 9075-2 (a doubled quote stands for one), delimited identifiers likewise. */
module SqlLiterals {
  import opened ByteStrings
  import opened Encodings
  import opened Options

  datatype Dialect = Postgres | Sqlite

  /** A decoded JSON value of a stored row. `Other` is an array or object, by its JSON text. */
  datatype Value = Null | Number(text: string) | Bool(b: bool) | Text(s: string) | Other(json: string)

  /** What the database has in a cell after reading a literal. */
  datatype Cell = NullCell | NumberCell(text: string) | BoolCell(b: bool) | TextCell(s: string) | BytesCell(bytes: Bytes)

  /** What a stored value stands for: in a binary column, base64 text stands for bytes and anything else for NULL. */
  function Meaning(v: Value, isBinary: bool): Cell
  {
    if v.Null? then NullCell
    else if isBinary then
      (match v
       case Text(s) => (match DecodeBase64(s) case Some(raw) => BytesCell(raw) case None => NullCell)
       case _ => NullCell)
    else
      match v
      case Number(text) => NumberCell(text)
      case Bool(b) => BoolCell(b)
      case Text(s) => TextCell(s)
      case Other(json) => TextCell(json)
  }

  // ---- Printing ----

  /** strings.ReplaceAll of a quote by two. */
  function Doubled(q: char, s: string): string
  {
    if s == "" then "" else (if s[0] == q then [q, q] else [s[0]]) + Doubled(q, s[1..])
  }

  function Quoted(q: char, s: string): string
  {
    [q] + Doubled(q, s) + [q]
  }

  function QuoteIdent(name: string): string
  {
    Quoted('"', name)
  }

  function HexLiteral(d: Dialect, hex: string): string
  {
    if d.Postgres? then "'" + "\\x" + hex + "'" else "X'" + hex + "'"
  }

  /** sqlLiteralForRestore. */
  function Literal(d: Dialect, v: Value, isBinary: bool): string
  {
    if v.Null? then "NULL"
    else if isBinary then
      (match v
       case Text(s) => (match DecodeBase64(s) case Some(raw) => HexLiteral(d, EncodeHex(raw)) case None => "NULL")
       case _ => "NULL")
    else
      match v
      case Number(text) => text
      case Bool(b) => if b then "TRUE" else "FALSE"
      case Text(s) => Quoted('\'', s)
      case Other(json) => Quoted('\'', json)
  }

  // ---- Reading ----

  /** The rest of a quoted text after its opening quote: what it says, and what follows it. */
  function ReadQuoted(q: char, s: string): (r: Option<(string, string)>)
    ensures r.Some? ==> |r.value.1| < |s|
  {
    if s == "" then None
    else if s[0] != q then More(s[0], ReadQuoted(q, s[1..]))
    else if |s| > 1 && s[1] == q then More(q, ReadQuoted(q, s[2..]))
    else Some(("", s[1..]))
  }

  function More(c: char, r: Option<(string, string)>): Option<(string, string)>
  {
    match r case None => None case Some((t, rest)) => Some(([c] + t, rest))
  }

  predicate NumberChar(c: char)
  {
    '0' <= c <= '9' || c == '+' || c == '-' || c == '.' || c == 'e' || c == 'E'
  }

  predicate NumberText(s: string)
  {
    s != "" && forall i :: 0 <= i < |s| ==> NumberChar(s[i])
  }

  /** The text of every number that JSON decoding delivers. */
  lemma NumbersAreRead(s: string)
    requires s != "" && forall i :: 0 <= i < |s| ==> s[i] in "0123456789+-.eE"
    ensures NumberText(s)
  {
  }

  function ReadNumber(s: string): (r: (string, string))
    ensures |r.1| <= |s|
  {
    if s == "" || !NumberChar(s[0]) then ("", s) else var (t, rest) := ReadNumber(s[1..]); ([s[0]] + t, rest)
  }

  predicate Starts(s: string, p: string)
  {
    |p| <= |s| && s[..|p|] == p
  }

  /** A string literal in a column of this type: PostgreSQL takes the hex format for bytea. */
  function AsCell(d: Dialect, isBinary: bool, s: string): Option<Cell>
  {
    if !isBinary then Some(TextCell(s))
    else if d.Postgres? && Starts(s, "\\x") then BytesOf(s[2..])
    else None
  }

  function BytesOf(hex: string): Option<Cell>
  {
    match DecodeHex(hex) case Some(raw) => Some(BytesCell(raw)) case None => None
  }

  /** One literal, and what follows it. */
  function ReadLiteral(d: Dialect, isBinary: bool, s: string): (r: Option<(Cell, string)>)
    ensures r.Some? ==> |r.value.1| <= |s|
  {
    if Starts(s, "NULL") then Some((NullCell, s[4..]))
    else if Starts(s, "TRUE") then Some((BoolCell(true), s[4..]))
    else if Starts(s, "FALSE") then Some((BoolCell(false), s[5..]))
    else if Starts(s, "'") then ReadString(d, isBinary, s[1..])
    else if d.Sqlite? && Starts(s, "X'") then ReadBlob(s[2..])
    else
      var (t, rest) := ReadNumber(s);
      if t == "" then None else Some((NumberCell(t), rest))
  }

  function ReadString(d: Dialect, isBinary: bool, s: string): Option<(Cell, string)>
  {
    match ReadQuoted('\'', s)
    case None => None
    case Some((t, rest)) => (match AsCell(d, isBinary, t) case None => None case Some(c) => Some((c, rest)))
  }

  function ReadBlob(s: string): Option<(Cell, string)>
  {
    match ReadQuoted('\'', s)
    case None => None
    case Some((t, rest)) => (match BytesOf(t) case None => None case Some(c) => Some((c, rest)))
  }

  lemma FirstDiffers(s: string, p: string)
    requires p != "" && (s == "" || s[0] != p[0])
    ensures !Starts(s, p)
  {
  }

  /** Which kind of literal it is shows in its first character. */
  lemma ReadByFirst(d: Dialect, isBinary: bool, s: string)
    requires s != ""
    ensures s[0] == '\'' ==> ReadLiteral(d, isBinary, s) == ReadString(d, isBinary, s[1..])
    ensures NumberChar(s[0]) ==> var (t, rest) := ReadNumber(s); ReadLiteral(d, isBinary, s) == Some((NumberCell(t), rest))
    ensures d.Sqlite? && |s| > 1 && s[0] == 'X' && s[1] == '\'' ==> ReadLiteral(d, isBinary, s) == ReadBlob(s[2..])
    ensures Starts(s, "NULL") ==> ReadLiteral(d, isBinary, s) == Some((NullCell, s[4..]))
    ensures Starts(s, "TRUE") ==> ReadLiteral(d, isBinary, s) == Some((BoolCell(true), s[4..]))
    ensures Starts(s, "FALSE") ==> ReadLiteral(d, isBinary, s) == Some((BoolCell(false), s[5..]))
  {
    hide ReadString;
    hide ReadBlob;
    hide ReadNumber;
    StartsDiffer(s);
    if NumberChar(s[0]) {
      NumberStarts(s);
    }
    if |s| > 1 && s[0] == 'X' && s[1] == '\'' { assert s[..2] == "X'"; }
    if s[0] == '\'' { assert s[..1] == "'"; }
    hide Starts;
  }

  lemma StartsDiffer(s: string)
    requires s != ""
    ensures Starts(s, "NULL") ==> s[0] == 'N'
    ensures Starts(s, "TRUE") ==> s[0] == 'T'
    ensures Starts(s, "FALSE") ==> s[0] == 'F'
    ensures Starts(s, "'") ==> s[0] == '\''
    ensures Starts(s, "X'") ==> s[0] == 'X'
  {
    if s[0] != 'N' { FirstDiffers(s, "NULL"); }
    if s[0] != 'T' { FirstDiffers(s, "TRUE"); }
    if s[0] != 'F' { FirstDiffers(s, "FALSE"); }
    if s[0] != '\'' { FirstDiffers(s, "'"); }
    if s[0] != 'X' { FirstDiffers(s, "X'"); }
  }

  lemma NumberStarts(s: string)
    requires s != "" && NumberChar(s[0])
    ensures ReadNumber(s).0 != ""
  {
  }

  // ---- One literal there and back ----

  /** Values a decoded row can hold: numbers are JSON number tokens. */
  predicate Decoded(v: Value)
  {
    v.Number? ==> NumberText(v.text)
  }

  /** What may follow a literal in the list. */
  predicate Follows(rest: string)
  {
    rest == "" || rest[0] == ',' || rest[0] == ')'
  }

  lemma {:induction false} QuotedBack(q: char, s: string, rest: string)
    requires rest == "" || rest[0] != q
    ensures ReadQuoted(q, Doubled(q, s) + [q] + rest) == Some((s, rest))
  {
    var t := Doubled(q, s) + [q] + rest;
    if s == "" {
      assert t[1..] == rest;
    } else {
      QuotedBack(q, s[1..], rest);
      var t' := Doubled(q, s[1..]) + [q] + rest;
      assert s == [s[0]] + s[1..];
      if s[0] == q {
        assert t == [q, q] + t' && t[2..] == t';
      } else {
        assert t == [s[0]] + t' && t[1..] == t';
      }
    }
  }

  lemma {:induction false} NumberBack(s: string, rest: string)
    requires forall i :: 0 <= i < |s| ==> NumberChar(s[i])
    requires Follows(rest)
    ensures ReadNumber(s + rest) == (s, rest)
  {
    if s == "" {
      assert s + rest == rest;
    } else {
      NumberBack(s[1..], rest);
      assert (s + rest)[1..] == s[1..] + rest;
      assert s == [s[0]] + s[1..];
    }
  }

  lemma {:induction false} NothingToDouble(q: char, s: string)
    requires forall i :: 0 <= i < |s| ==> s[i] != q
    ensures Doubled(q, s) == s
  {
    if s != "" {
      NothingToDouble(q, s[1..]);
    }
  }

  lemma QuotedIs(q: char, s: string, rest: string)
    requires rest == "" || rest[0] != q
    ensures var t := Quoted(q, s) + rest; Starts(t, [q]) && ReadQuoted(q, t[1..]) == Some((s, rest))
  {
    QuotedBack(q, s, rest);
    assert (Quoted(q, s) + rest)[1..] == Doubled(q, s) + [q] + rest;
  }

  lemma TextBack(d: Dialect, s: string, rest: string)
    requires Follows(rest)
    ensures ReadLiteral(d, false, Quoted('\'', s) + rest) == Some((TextCell(s), rest))
  {
    QuotedIs('\'', s, rest);
    ReadByFirst(d, false, Quoted('\'', s) + rest);
    hide ReadLiteral;
    hide ReadQuoted;
  }

  lemma BytesBack(d: Dialect, raw: Bytes, rest: string)
    requires Follows(rest)
    ensures ReadLiteral(d, true, HexLiteral(d, EncodeHex(raw)) + rest) == Some((BytesCell(raw), rest))
  {
    HexRoundTrip(raw);
    ReadByFirst(d, true, HexLiteral(d, EncodeHex(raw)) + rest);
    hide ReadLiteral;
    hide ReadNumber;
    hide EncodeHex;
    hide DecodeHex;
    if d.Postgres? {
      HexStringBack(d, EncodeHex(raw), rest);
    } else {
      BlobBack(d, EncodeHex(raw), rest);
    }
  }

  lemma HexStringBack(d: Dialect, hex: string, rest: string)
    requires d.Postgres? && '\'' !in hex && Follows(rest)
    ensures var t := HexLiteral(d, hex) + rest;
      |t| > 1 && t[0] == '\'' && ReadString(d, true, t[1..]) == (match BytesOf(hex) case None => None case Some(c) => Some((c, rest)))
  {
    hide ReadQuoted;
    hide Doubled;
    hide BytesOf;
    var s := "\\x" + hex;
    NothingToDouble('\'', s);
    QuotedIs('\'', s, rest);
    assert HexLiteral(d, hex) + rest == Quoted('\'', s) + rest;
    assert s[..2] == "\\x" && s[2..] == hex;
  }

  lemma BlobBack(d: Dialect, hex: string, rest: string)
    requires d.Sqlite? && '\'' !in hex && Follows(rest)
    ensures var t := HexLiteral(d, hex) + rest;
      && |t| > 1 && t[0] == 'X' && t[1] == '\''
      && ReadBlob(t[2..]) == (match BytesOf(hex) case None => None case Some(c) => Some((c, rest)))
  {
    hide ReadQuoted;
    hide Doubled;
    hide BytesOf;
    NothingToDouble('\'', hex);
    QuotedBack('\'', hex, rest);
    assert (HexLiteral(d, hex) + rest)[2..] == Doubled('\'', hex) + ['\''] + rest;
  }

  lemma KeywordBack(d: Dialect, isBinary: bool, word: string, rest: string)
    requires word == "NULL" || word == "TRUE" || word == "FALSE"
    ensures ReadLiteral(d, isBinary, word + rest) ==
      Some((if word == "NULL" then NullCell else BoolCell(word == "TRUE"), rest))
  {
    var s := word + rest;
    assert s[..|word|] == word && s[|word|..] == rest;
    ReadByFirst(d, isBinary, s);
  }

  /** A printed literal reads back as what the stored value stands for, and reading stops where it ends. */
  lemma LiteralBack(d: Dialect, v: Value, isBinary: bool, rest: string)
    requires Decoded(v) && Follows(rest)
    ensures ReadLiteral(d, isBinary, Literal(d, v, isBinary) + rest) == Some((Meaning(v, isBinary), rest))
  {
    hide ReadLiteral;
    hide DecodeBase64;
    hide Quoted;
    hide HexLiteral;
    if v.Null? || (isBinary && (!v.Text? || DecodeBase64(v.s).None?)) {
      KeywordBack(d, isBinary, "NULL", rest);
    } else if isBinary {
      BytesBack(d, DecodeBase64(v.s).value, rest);
    } else {
      match v
      case Number(text) =>
        NumberBack(text, rest);
        assert (text + rest)[0] == text[0];
        ReadByFirst(d, isBinary, text + rest);
      case Bool(b) => KeywordBack(d, isBinary, if b then "TRUE" else "FALSE", rest);
      case Text(t) => TextBack(d, t, rest);
      case Other(t) => TextBack(d, t, rest);
    }
  }

  // ---- The whole statement ----

  type Row = map<string, Value>

  function Join(parts: seq<string>): string
  {
    if |parts| == 0 then "" else if |parts| == 1 then parts[0] else parts[0] + ", " + Join(parts[1..])
  }

  /** row[col]: a column the row does not have is nil. */
  function CellOf(row: Row, col: string): Value
  {
    if col in row then row[col] else Null
  }

  function RowLiterals(d: Dialect, columns: seq<string>, binary: set<string>, row: Row): (vals: seq<string>)
    ensures |vals| == |columns|
  {
    seq(|columns|, j requires 0 <= j < |columns| => Literal(d, CellOf(row, columns[j]), columns[j] in binary))
  }

  function RowText(d: Dialect, columns: seq<string>, binary: set<string>, row: Row): string
  {
    "(" + Join(RowLiterals(d, columns, binary, row)) + ")"
  }

  function RowTexts(d: Dialect, columns: seq<string>, binary: set<string>, rows: seq<Row>): (texts: seq<string>)
    ensures |texts| == |rows|
  {
    seq(|rows|, i requires 0 <= i < |rows| => RowText(d, columns, binary, rows[i]))
  }

  function Idents(columns: seq<string>): (idents: seq<string>)
    ensures |idents| == |columns|
  {
    seq(|columns|, i requires 0 <= i < |columns| => QuoteIdent(columns[i]))
  }

  function InsertText(d: Dialect, table: string, columns: seq<string>, binary: set<string>, rows: seq<Row>): string
  {
    "INSERT INTO " + QuoteIdent(table) + " (" + Join(Idents(columns)) + ") VALUES " + Join(RowTexts(d, columns, binary, rows))
  }

  /** A delimited identifier list up to its closing parenthesis. */
  function ReadIdents(s: string): (r: Option<(seq<string>, string)>)
    decreases |s|
  {
    if !Starts(s, "\"") then None
    else
      match ReadQuoted('"', s[1..])
      case None => None
      case Some((name, rest)) =>
        if Starts(rest, ")") then Some(([name], rest[1..]))
        else if Starts(rest, ", ") then
          (match ReadIdents(rest[2..]) case None => None case Some((names, end)) => Some(([name] + names, end)))
        else None
  }

  /** The cells of one row, up to its closing parenthesis. */
  function ReadCells(d: Dialect, binary: set<string>, columns: seq<string>, s: string): (r: Option<(seq<Cell>, string)>)
    ensures r.Some? ==> |r.value.1| < |s|
    decreases |columns|
  {
    if columns == [] then None
    else
      match ReadLiteral(d, columns[0] in binary, s)
      case None => None
      case Some((c, rest)) =>
        if |columns| == 1 then (if Starts(rest, ")") then Some(([c], rest[1..])) else None)
        else if Starts(rest, ", ") then
          (match ReadCells(d, binary, columns[1..], rest[2..]) case None => None case Some((cs, end)) => Some(([c] + cs, end)))
        else None
  }

  function ReadRows(d: Dialect, binary: set<string>, columns: seq<string>, s: string): Option<seq<seq<Cell>>>
    decreases |s|
  {
    if !Starts(s, "(") then None
    else
      match ReadCells(d, binary, columns, s[1..])
      case None => None
      case Some((cells, rest)) =>
        if rest == "" then Some([cells])
        else if Starts(rest, ", ") then
          (match ReadRows(d, binary, columns, rest[2..]) case None => None case Some(more) => Some([cells] + more))
        else None
  }

  datatype Insert = Insert(table: string, columns: seq<string>, rows: seq<seq<Cell>>)

  function ReadInsert(d: Dialect, binary: set<string>, s: string): Option<Insert>
  {
    if !Starts(s, "INSERT INTO \"") then None
    else
      match ReadQuoted('"', s[13..])
      case None => None
      case Some((table, rest)) =>
        if !Starts(rest, " (") then None
        else
          match ReadIdents(rest[2..])
          case None => None
          case Some((columns, body)) =>
            if !Starts(body, " VALUES ") then None
            else
              match ReadRows(d, binary, columns, body[8..])
              case None => None
              case Some(rows) => Some(Insert(table, columns, rows))
  }

  function RowMeaning(columns: seq<string>, binary: set<string>, row: Row): (cells: seq<Cell>)
    ensures |cells| == |columns|
  {
    seq(|columns|, j requires 0 <= j < |columns| => Meaning(CellOf(row, columns[j]), columns[j] in binary))
  }

  function RowsMeaning(columns: seq<string>, binary: set<string>, rows: seq<Row>): (out: seq<seq<Cell>>)
    ensures |out| == |rows|
  {
    seq(|rows|, i requires 0 <= i < |rows| => RowMeaning(columns, binary, rows[i]))
  }

  predicate DecodedRow(row: Row)
  {
    forall col :: col in row ==> Decoded(row[col])
  }

  lemma JoinNext(parts: seq<string>, first: string)
    requires parts != []
    ensures Join([first] + parts) == first + ", " + Join(parts)
  {
  }

  lemma StartsWith(p: string, rest: string)
    ensures Starts(p + rest, p) && (p + rest)[|p|..] == rest
  {
  }

  lemma JoinOne(part: string)
    ensures Join([part]) == part
  {
  }

  /** How the texts of one item, the separator and the rest of the list hang together. */
  lemma ListGlue(item: string, others: string, close: string, rest: string)
    ensures item + ", " + others + close + rest == item + (", " + (others + close + rest))
    ensures item + close + rest == item + (close + rest)
  {
  }

  lemma AfterItem(close: string, rest: string, others: string)
    requires close == ")"
    ensures Starts(close + rest, ")") && (close + rest)[1..] == rest
    ensures !Starts(", " + others, ")") && Starts(", " + others, ", ") && (", " + others)[2..] == others
  {
    StartsWith(")", rest);
    StartsWith(", ", others);
    FirstDiffers(", " + others, ")");
  }

  lemma ReadIdentsStep(t: string, first: string, after: string)
    requires Starts(t, "\"") && ReadQuoted('"', t[1..]) == Some((first, after))
    ensures Starts(after, ")") ==> ReadIdents(t) == Some(([first], after[1..]))
    ensures !Starts(after, ")") && Starts(after, ", ") ==>
      ReadIdents(t) == match ReadIdents(after[2..]) case None => None case Some((names, end)) => Some(([first] + names, end))
  {
  }

  lemma {:induction false} IdentsBack(columns: seq<string>, rest: string)
    requires columns != []
    ensures ReadIdents(Join(Idents(columns)) + ")" + rest) == Some((columns, rest))
    decreases |columns|
  {
    hide ReadIdents;
    hide ReadQuoted;
    hide QuoteIdent;
    hide Join;
    hide Starts;
    var first, q := columns[0], QuoteIdent(columns[0]);
    var others := if |columns| == 1 then "" else Join(Idents(columns[1..]));
    ListGlue(q, others, ")", rest);
    AfterItem(")", rest, others + ")" + rest);
    if |columns| == 1 {
      assert Idents(columns) == [q] && columns == [first];
      JoinOne(q);
      IdentIs(first, ")" + rest);
      ReadIdentsStep(q + (")" + rest), first, ")" + rest);
    } else {
      IdentsBack(columns[1..], rest);
      assert Idents(columns) == [q] + Idents(columns[1..]) && columns == [first] + columns[1..];
      JoinNext(Idents(columns[1..]), q);
      IdentIs(first, ", " + (others + ")" + rest));
      ReadIdentsStep(q + (", " + (others + ")" + rest)), first, ", " + (others + ")" + rest));
    }
  }

  lemma IdentIs(name: string, after: string)
    requires after != "" && after[0] != '"'
    ensures Starts(QuoteIdent(name) + after, "\"") && ReadQuoted('"', (QuoteIdent(name) + after)[1..]) == Some((name, after))
  {
    QuotedIs('"', name, after);
  }

  lemma ReadCellsStep(d: Dialect, binary: set<string>, columns: seq<string>, s: string, c: Cell, after: string)
    requires columns != [] && ReadLiteral(d, columns[0] in binary, s) == Some((c, after))
    ensures |columns| == 1 && Starts(after, ")") ==> ReadCells(d, binary, columns, s) == Some(([c], after[1..]))
    ensures |columns| > 1 && Starts(after, ", ") ==>
      ReadCells(d, binary, columns, s) ==
      match ReadCells(d, binary, columns[1..], after[2..]) case None => None case Some((cs, end)) => Some(([c] + cs, end))
  {
  }

  lemma {:induction false} CellsBack(d: Dialect, binary: set<string>, columns: seq<string>, row: Row, rest: string)
    requires columns != [] && DecodedRow(row)
    ensures ReadCells(d, binary, columns, Join(RowLiterals(d, columns, binary, row)) + ")" + rest) ==
      Some((RowMeaning(columns, binary, row), rest))
    decreases |columns|
  {
    hide ReadLiteral;
    hide ReadCells;
    hide Literal;
    hide Meaning;
    hide Join;
    hide Starts;
    var v, isBinary := CellOf(row, columns[0]), columns[0] in binary;
    var lit, cell := Literal(d, v, isBinary), Meaning(v, isBinary);
    var others := if |columns| == 1 then "" else Join(RowLiterals(d, columns[1..], binary, row));
    ListGlue(lit, others, ")", rest);
    AfterItem(")", rest, others + ")" + rest);
    if |columns| == 1 {
      assert RowLiterals(d, columns, binary, row) == [lit] && RowMeaning(columns, binary, row) == [cell];
      JoinOne(lit);
      LiteralBack(d, v, isBinary, ")" + rest);
      ReadCellsStep(d, binary, columns, lit + (")" + rest), cell, ")" + rest);
    } else {
      CellsBack(d, binary, columns[1..], row, rest);
      assert RowLiterals(d, columns, binary, row) == [lit] + RowLiterals(d, columns[1..], binary, row);
      assert RowMeaning(columns, binary, row) == [cell] + RowMeaning(columns[1..], binary, row);
      JoinNext(RowLiterals(d, columns[1..], binary, row), lit);
      LiteralBack(d, v, isBinary, ", " + (others + ")" + rest));
      ReadCellsStep(d, binary, columns, lit + (", " + (others + ")" + rest)), cell, ", " + (others + ")" + rest));
    }
  }

  lemma ReadRowsStep(d: Dialect, binary: set<string>, columns: seq<string>, body: string, cells: seq<Cell>, rest: string)
    requires ReadCells(d, binary, columns, body) == Some((cells, rest))
    ensures rest == "" ==> ReadRows(d, binary, columns, "(" + body) == Some([cells])
    ensures rest != "" && Starts(rest, ", ") ==>
      ReadRows(d, binary, columns, "(" + body) ==
      match ReadRows(d, binary, columns, rest[2..]) case None => None case Some(more) => Some([cells] + more)
  {
  }

  lemma {:induction false} RowsBack(d: Dialect, binary: set<string>, columns: seq<string>, rows: seq<Row>)
    requires columns != [] && rows != [] && forall i :: 0 <= i < |rows| ==> DecodedRow(rows[i])
    ensures ReadRows(d, binary, columns, Join(RowTexts(d, columns, binary, rows))) == Some(RowsMeaning(columns, binary, rows))
    decreases |rows|
  {
    hide ReadCells;
    hide ReadRows;
    hide DecodedRow;
    hide Join;
    hide Starts;
    hide RowMeaning;
    var vals, cells := Join(RowLiterals(d, columns, binary, rows[0])), RowMeaning(columns, binary, rows[0]);
    var text := RowText(d, columns, binary, rows[0]);
    if |rows| == 1 {
      CellsBack(d, binary, columns, rows[0], "");
      assert RowTexts(d, columns, binary, rows) == [text] && RowsMeaning(columns, binary, rows) == [cells];
      JoinOne(text);
      RowGlue(vals, "");
      ReadRowsStep(d, binary, columns, vals + ")" + "", cells, "");
    } else {
      var others := Join(RowTexts(d, columns, binary, rows[1..]));
      RowsBack(d, binary, columns, rows[1..]);
      assert RowTexts(d, columns, binary, rows) == [text] + RowTexts(d, columns, binary, rows[1..]);
      assert RowsMeaning(columns, binary, rows) == [cells] + RowsMeaning(columns, binary, rows[1..]);
      JoinNext(RowTexts(d, columns, binary, rows[1..]), text);
      CellsBack(d, binary, columns, rows[0], ", " + others);
      AfterItem(")", "", others);
      RowGlue(vals, ", " + others);
      assert text + ", " + others == text + (", " + others);
      ReadRowsStep(d, binary, columns, vals + ")" + (", " + others), cells, ", " + others);
    }
  }

  lemma RowGlue(vals: string, rest: string)
    ensures "(" + vals + ")" + rest == "(" + (vals + ")" + rest)
    ensures "(" + vals + ")" + "" == "(" + vals + ")"
  {
  }

  /** The printed INSERT reads back to the same table, columns and rows, whatever quotes, separators or parentheses the
      names and values contain. */
  lemma InsertBack(d: Dialect, table: string, columns: seq<string>, binary: set<string>, rows: seq<Row>)
    requires columns != [] && rows != [] && forall i :: 0 <= i < |rows| ==> DecodedRow(rows[i])
    ensures ReadInsert(d, binary, InsertText(d, table, columns, binary, rows)) ==
      Some(Insert(table, columns, RowsMeaning(columns, binary, rows)))
  {
    hide ReadRows;
    hide ReadIdents;
    hide DecodedRow;
    hide RowTexts;
    hide Idents;
    hide ReadQuoted;
    var body := Join(RowTexts(d, columns, binary, rows));
    var tail := " VALUES " + body;
    var list := Join(Idents(columns)) + ")" + tail;
    var after := " (" + list;
    RowsBack(d, binary, columns, rows);
    StartsWith(" VALUES ", body);
    IdentsBack(columns, tail);
    StartsWith(" (", list);
    QuotedBack('"', table, after);
    var text := Doubled('"', table) + ['"'] + after;
    StartsWith("INSERT INTO \"", text);
    Glued(Doubled('"', table), Join(Idents(columns)), body);
  }

  lemma Glued(name: string, idents: string, body: string)
    ensures "INSERT INTO " + (['"'] + name + ['"']) + " (" + idents + ") VALUES " + body ==
            "INSERT INTO \"" + (name + ['"'] + (" (" + (idents + ")" + (" VALUES " + body))))
  {
  }

  /** The cells of a row, by column. */
  function ByColumn(columns: seq<string>, cells: seq<Cell>): map<string, Cell>
    requires |columns| == |cells|
  {
    if columns == [] then map[] else ByColumn(columns[..|columns| - 1], cells[..|cells| - 1])[columns[|columns| - 1] := cells[|cells| - 1]]
  }

  /** A row read back: a cell for every column, which holds what the row's own value under that name stands for, and NULL
      where the row has none. With the columns taken from the row's keys, nothing of it is lost. */
  lemma {:induction false} NothingOfTheRowIsLost(columns: seq<string>, binary: set<string>, row: Row)
    ensures ByColumn(columns, RowMeaning(columns, binary, row)).Keys == set c | c in columns
    ensures forall c :: c in columns ==>
      ByColumn(columns, RowMeaning(columns, binary, row))[c] == if c in row then Meaning(row[c], c in binary) else NullCell
    ensures (forall c :: c in columns <==> c in row) ==> ByColumn(columns, RowMeaning(columns, binary, row)).Keys == row.Keys
  {
    if columns != [] {
      var n := |columns| - 1;
      NothingOfTheRowIsLost(columns[..n], binary, row);
      LastCell(columns, binary, row);
      hide Meaning;
      hide RowMeaning;
    }
  }

  lemma LastCell(columns: seq<string>, binary: set<string>, row: Row)
    requires columns != []
    ensures var (n, cells) := (|columns| - 1, RowMeaning(columns, binary, row));
      && columns == columns[..n] + [columns[n]] && cells[..n] == RowMeaning(columns[..n], binary, row)
      && cells[n] == if columns[n] in row then Meaning(row[columns[n]], columns[n] in binary) else NullCell
  {
  }

  /** The statement, as the database reads it, inserts just these rows into the table: in each column what the row has
      under that name, and NULL if it has nothing. */
  ghost predicate Inserts(read: Option<Insert>, table: string, columns: seq<string>, binary: set<string>, rows: seq<Row>)
  {
    && read.Some? && read.value.table == table && read.value.columns == columns && |read.value.rows| == |rows|
    && forall i :: 0 <= i < |rows| ==> InsertsRow(columns, read.value.rows[i], binary, rows[i])
  }

  ghost predicate InsertsRow(columns: seq<string>, cells: seq<Cell>, binary: set<string>, row: Row)
  {
    && |cells| == |columns|
    && forall c :: c in columns ==>
         c in ByColumn(columns, cells) && ByColumn(columns, cells)[c] == if c in row then Meaning(row[c], c in binary) else NullCell
  }

  lemma InsertsThem(d: Dialect, table: string, columns: seq<string>, binary: set<string>, rows: seq<Row>)
    ensures Inserts(Some(Insert(table, columns, RowsMeaning(columns, binary, rows))), table, columns, binary, rows)
  {
    forall i | 0 <= i < |rows| ensures InsertsRow(columns, RowsMeaning(columns, binary, rows)[i], binary, rows[i]) {
      NothingOfTheRowIsLost(columns, binary, rows[i]);
    }
  }

  /** Values that are not the same stand for different cells, but for a text and a JSON value of the same text. */
  lemma MeaningsDiffer(v: Value, v': Value)
    requires Meaning(v, false) == Meaning(v', false)
    ensures v == v' || (v.Text? && v'.Other? && v.s == v'.json) || (v.Other? && v'.Text? && v.json == v'.s)
  {
  }

  /** insertSQLRows' flush: the text of one multi-row INSERT. */
  method BuildInsert(d: Dialect, table: string, columns: seq<string>, binary: set<string>, batch: seq<Row>) returns (text: string)
    ensures text == InsertText(d, table, columns, binary, batch)
    ensures columns != [] && batch != [] && (forall i :: 0 <= i < |batch| ==> DecodedRow(batch[i])) ==>
      Inserts(ReadInsert(d, binary, text), table, columns, binary, batch)
  {
    var colIdents: seq<string> := [];
    for i := 0 to |columns|
      invariant colIdents == Idents(columns)[..i]
    {
      colIdents := colIdents + [QuoteIdent(columns[i])];
    }
    assert Idents(columns)[..|columns|] == Idents(columns);
    var valueGroups: seq<string> := [];
    for i := 0 to |batch|
      invariant valueGroups == RowTexts(d, columns, binary, batch)[..i]
    {
      var vals: seq<string> := [];
      for j := 0 to |columns|
        invariant vals == RowLiterals(d, columns, binary, batch[i])[..j]
      {
        vals := vals + [Literal(d, CellOf(batch[i], columns[j]), columns[j] in binary)];
      }
      assert RowLiterals(d, columns, binary, batch[i])[..|columns|] == RowLiterals(d, columns, binary, batch[i]);
      valueGroups := valueGroups + ["(" + Join(vals) + ")"];
    }
    assert RowTexts(d, columns, binary, batch)[..|batch|] == RowTexts(d, columns, binary, batch);
    text := "INSERT INTO " + QuoteIdent(table) + " (" + Join(colIdents) + ") VALUES " + Join(valueGroups);
    if columns != [] && batch != [] && (forall i :: 0 <= i < |batch| ==> DecodedRow(batch[i])) {
      InsertBack(d, table, columns, binary, batch);
      InsertsThem(d, table, columns, binary, batch);
    }
  }

  /** Bytes read from the database, stored as base64 and restored, are the same bytes again. */
  lemma BinaryBack(d: Dialect, raw: Bytes, rest: string)
    requires Follows(rest)
    ensures ReadLiteral(d, true, Literal(d, Text(EncodeBase64(raw)), true) + rest) == Some((BytesCell(raw), rest))
  {
    Base64RoundTrip(raw);
    hide DecodeBase64;
    LiteralBack(d, Text(EncodeBase64(raw)), true, rest);
  }
}
