/**
 * The shader-header generator: compiled SPIR-V files are turned into
 * `constexpr uint8_t` array literals and gathered into one generated header.
 *
 * Text is `string`; a file's contents are a sequence of bytes. The directory
 * walks, the `dxc.exe` subprocess and the file writes are not modelled: a shader
 * folder is given as the list of its entries (name and bytes) in listing order.
 */
module ShaderHeader {
  import opened Wrappers

  type Byte = x: int | 0 <= x < 256

  // ---------------------------------------------------------------------------
  // bytes.hex()
  // ---------------------------------------------------------------------------

  /** The lower-case hexadecimal digit of a nibble. */
  function HexDigit(v: nat): (c: char)
    requires v < 16
    ensures IsLowerHexDigit(c)
  {
    if v < 10 then ('0' as int + v) as char else ('a' as int + v - 10) as char
  }

  predicate IsLowerHexDigit(c: char) {
    '0' <= c <= '9' || 'a' <= c <= 'f'
  }

  /** The two lower-case hexadecimal digits of one byte, high nibble first. */
  function HexPair(b: Byte): (p: string)
    ensures |p| == 2 && IsLowerHexDigit(p[0]) && IsLowerHexDigit(p[1])
  {
    [HexDigit(b / 16), HexDigit(b % 16)]
  }

  /** Python's `bytes.hex()`: every byte as two lower-case hexadecimal digits. */
  function Hex(bytes: seq<Byte>): (h: string)
    ensures |h| == 2 * |bytes|
  {
    if bytes == [] then "" else Hex(bytes[..|bytes| - 1]) + HexPair(bytes[|bytes| - 1])
  }

  lemma {:induction false} HexAt(bytes: seq<Byte>, i: nat)
    requires i < |bytes|
    ensures Hex(bytes)[2 * i..2 * i + 2] == HexPair(bytes[i])
  {
    var init := bytes[..|bytes| - 1];
    assert Hex(bytes) == Hex(init) + HexPair(bytes[|bytes| - 1]);
    if i < |bytes| - 1 {
      HexAt(init, i);
      assert Hex(bytes)[2 * i..2 * i + 2] == Hex(init)[2 * i..2 * i + 2];
    }
  }

  /** The value of one lower-case hexadecimal digit; it inverts HexDigit. */
  function DigitValue(c: char): (v: nat)
    requires IsLowerHexDigit(c)
    ensures v < 16 && HexDigit(v) == c
  {
    if '0' <= c <= '9' then c as int - '0' as int else c as int - 'a' as int + 10
  }

  lemma DigitValueOfHexDigit(v: nat)
    requires v < 16
    ensures DigitValue(HexDigit(v)) == v
  {
  }

  // ---------------------------------------------------------------------------
  // GenerateShaderFormatedArray
  // ---------------------------------------------------------------------------

  /** The seven spaces that open every row of literals. */
  const Indent: string := "       "

  /** The declaration line that opens the array. */
  function Declaration(arrayName: string): string {
    "    constexpr uint8_t " + arrayName + "[] = {\n"
  }

  /** The literal for byte `idx`: the two hex characters at `2*idx` behind ` 0x`, then a comma. */
  function Literal(hexStr: string, idx: nat): string
    requires 2 * idx + 2 <= |hexStr|
  {
    " 0x" + hexStr[2 * idx..2 * idx + 2] + ","
  }

  /** The indent that opens a row, before every sixteenth literal. */
  function Lead(idx: nat): string {
    if idx % 16 == 0 then Indent else ""
  }

  /** The newline that closes a full row, after every sixteenth literal. */
  function Trail(idx: nat): string {
    if idx % 16 == 15 then "\n" else ""
  }

  /** What one iteration of the encoder's loop appends for byte `idx`. */
  function Element(hexStr: string, idx: nat): string
    requires 2 * idx + 2 <= |hexStr|
  {
    Lead(idx) + Literal(hexStr, idx) + Trail(idx)
  }

  /** The elements of the first `n` bytes, in order. */
  function Elements(hexStr: string, n: nat): string
    requires 2 * n <= |hexStr|
  {
    if n == 0 then "" else Elements(hexStr, n - 1) + Element(hexStr, n - 1)
  }

  /** The encoder's result: the declaration and all elements, less the last character, then `};\n`. */
  function FormattedArray(hexStr: string, arrayName: string): string {
    var full := Declaration(arrayName) + Elements(hexStr, |hexStr| / 2);
    DropLast(full) + "};\n"
  }

  /** Encodes a hex string as an indented array literal of 16 bytes per row. */
  method GenerateShaderFormatedArray(hexStr: string, arrayName: string) returns (shaderArrayStr: string)
    ensures shaderArrayStr == FormattedArray(hexStr, arrayName)
  {
    shaderArrayStr := "    constexpr uint8_t " + arrayName + "[] = {\n";
    var count := |hexStr| / 2;
    for idx := 0 to count
      invariant shaderArrayStr == Declaration(arrayName) + Elements(hexStr, idx)
    {
      var eleStr := "";
      if idx % 16 == 0 {
        eleStr := eleStr + "       ";
      }
      var lead := eleStr;
      eleStr := eleStr + " 0x" + hexStr[2 * idx..2 * idx + 2] + ",";
      Assoc4(lead, " 0x", hexStr[2 * idx..2 * idx + 2], ",");
      if idx % 16 == 15 {
        eleStr := eleStr + "\n";
      } else {
        AppendEmptyRight(eleStr);
      }
      AppendEmpty(Indent);
      ElementStep(hexStr, arrayName, idx, shaderArrayStr, eleStr);
      shaderArrayStr := shaderArrayStr + eleStr;
    }
    shaderArrayStr := shaderArrayStr[..|shaderArrayStr| - 1];
    shaderArrayStr := shaderArrayStr + "};\n";
  }

  /** One iteration of the encoder's loop extends the text by the next element. */
  lemma ElementStep(hexStr: string, arrayName: string, idx: nat, acc: string, eleStr: string)
    requires 2 * idx + 2 <= |hexStr|
    requires acc == Declaration(arrayName) + Elements(hexStr, idx)
    requires eleStr == Element(hexStr, idx)
    ensures acc + eleStr == Declaration(arrayName) + Elements(hexStr, idx + 1)
  {
    UnfoldElements(hexStr, idx + 1);
    AppendAssoc(Declaration(arrayName), Elements(hexStr, idx), eleStr);
  }

  lemma Assoc4<T>(a: seq<T>, b: seq<T>, c: seq<T>, d: seq<T>)
    ensures a + b + c + d == a + (b + c + d)
  {
  }

  lemma AppendEmptyRight<T>(a: seq<T>)
    ensures a + [] == a
  {
  }

  // ---------------------------------------------------------------------------
  // Literals of an encoded byte sequence
  // ---------------------------------------------------------------------------

  /** Every literal of an encoded byte sequence is ` 0x`, the byte's two lower-case digits and a comma. */
  lemma LiteralOfByte(bytes: seq<Byte>, i: nat)
    requires i < |bytes|
    ensures Literal(Hex(bytes), i) == " 0x" + HexPair(bytes[i]) + ","
  {
    HexAt(bytes, i);
  }

  // ---------------------------------------------------------------------------
  // Row layout
  // ---------------------------------------------------------------------------

  /** The literals of bytes `lo` up to (not including) `hi`. */
  function Literals(hexStr: string, lo: nat, hi: nat): string
    requires lo <= hi && 2 * hi <= |hexStr|
    decreases hi - lo
  {
    if hi == lo then "" else Literals(hexStr, lo, hi - 1) + Literal(hexStr, hi - 1)
  }

  /** Row `r` holding `m` literals: the indent, the literals, and a newline when the row is full. */
  function Row(hexStr: string, r: nat, m: nat): string
    requires 1 <= m <= 16 && 2 * (16 * r + m) <= |hexStr|
  {
    Indent + Literals(hexStr, 16 * r, 16 * r + m) + (if m == 16 then "\n" else "")
  }

  /** The first `k` rows, each full. */
  function FullRows(hexStr: string, k: nat): string
    requires 2 * 16 * k <= |hexStr|
  {
    if k == 0 then "" else FullRows(hexStr, k - 1) + Row(hexStr, k - 1, 16)
  }

  /** The first element of row `k` opens the row with the indent. */
  lemma RowStart(hexStr: string, k: nat)
    requires 2 * (16 * k + 1) <= |hexStr|
    ensures Elements(hexStr, 16 * k + 1) == Elements(hexStr, 16 * k) + Row(hexStr, k, 1)
  {
    var i := 16 * k;
    var lit := Literal(hexStr, i);
    assert Lead(i) == Indent && Trail(i) == "";
    assert Elements(hexStr, i + 1) == Elements(hexStr, i) + (Indent + lit);
    assert Literals(hexStr, i, i + 1) == lit;
  }

  /** Each further element of row `k` extends the row by one literal, and the sixteenth closes it. */
  lemma RowExtend(hexStr: string, k: nat, m: nat)
    requires 1 <= m < 16 && 2 * (16 * k + m + 1) <= |hexStr|
    requires Elements(hexStr, 16 * k + m) == Elements(hexStr, 16 * k) + Row(hexStr, k, m)
    ensures Elements(hexStr, 16 * k + m + 1) == Elements(hexStr, 16 * k) + Row(hexStr, k, m + 1)
  {
    var base := 16 * k;
    var i := base + m;
    var lits := Literals(hexStr, base, i);
    var lit := Literal(hexStr, i);
    InsideRow(hexStr, k, m);
    UnfoldElements(hexStr, i + 1);
    AppendEmptyRight(Indent + lits);
    RowAppend(Elements(hexStr, base), Indent, lits, lit, Trail(i));
  }

  /** Byte `16 * k + m`, for `0 < m < 16`, is a literal inside row `k`: no indent, a newline only after the sixteenth. */
  lemma InsideRow(hexStr: string, k: nat, m: nat)
    requires 1 <= m < 16 && 2 * (16 * k + m + 1) <= |hexStr|
    ensures Element(hexStr, 16 * k + m) == "" + Literal(hexStr, 16 * k + m) + Trail(16 * k + m)
    ensures Row(hexStr, k, m) == Indent + Literals(hexStr, 16 * k, 16 * k + m) + ""
    ensures Row(hexStr, k, m + 1) ==
      Indent + (Literals(hexStr, 16 * k, 16 * k + m) + Literal(hexStr, 16 * k + m)) + Trail(16 * k + m)
  {
    assert (16 * k + m) % 16 == m;
  }

  lemma RowAppend(e: string, ind: string, lits: string, lit: string, t: string)
    ensures (e + (ind + lits)) + ("" + lit + t) == e + (ind + (lits + lit) + t)
  {
  }

  /** Within row `k`, the elements after the first `16 * k` bytes form one row of `m` literals. */
  lemma {:induction false} ElementsWithinRow(hexStr: string, k: nat, m: nat)
    requires 1 <= m <= 16 && 2 * (16 * k + m) <= |hexStr|
    ensures Elements(hexStr, 16 * k + m) == Elements(hexStr, 16 * k) + Row(hexStr, k, m)
  {
    if m == 1 {
      RowStart(hexStr, k);
    } else {
      ElementsWithinRow(hexStr, k, m - 1);
      RowExtend(hexStr, k, m - 1);
    }
  }

  /** The elements of `16 * k` bytes are exactly `k` full rows. */
  lemma {:induction false} ElementsAreFullRows(hexStr: string, k: nat)
    requires 2 * 16 * k <= |hexStr|
    ensures Elements(hexStr, 16 * k) == FullRows(hexStr, k)
  {
    if k > 0 {
      ElementsAreFullRows(hexStr, k - 1);
      ElementsWithinRow(hexStr, k - 1, 16);
    }
  }

  /**
   * The elements of `16 * k + m` bytes (`m < 16`) are `k` full rows of 16 literals,
   * each ending in a newline, followed by one last row holding the remaining `m`
   * literals without a newline when `m` is not zero; only the last row may be short.
   */
  lemma ElementsAreRows(hexStr: string, k: nat, m: nat)
    requires m < 16 && 2 * (16 * k + m) <= |hexStr|
    ensures Elements(hexStr, 16 * k + m) == FullRows(hexStr, k) + (if m == 0 then "" else Row(hexStr, k, m))
  {
    ElementsAreFullRows(hexStr, k);
    if m == 0 {
      AppendEmptyRight(Elements(hexStr, 16 * k));
    } else {
      ElementsWithinRow(hexStr, k, m);
    }
  }

  // ---------------------------------------------------------------------------
  // The dropped last character
  // ---------------------------------------------------------------------------

  /**
   * The encoder drops the last character before closing the array: after the last
   * literal that is its comma, unless the last row is full, when it is the row's
   * newline and the comma stays right before `};`. With no bytes at all it is the
   * declaration's own newline (EmptyArray).
   */
  lemma LastCharacterDropped(bytes: seq<Byte>, arrayName: string)
    requires |bytes| > 0
    ensures var n := |bytes|;
      FormattedArray(Hex(bytes), arrayName) ==
        Declaration(arrayName) + Elements(Hex(bytes), n - 1) + CutElement(bytes, n - 1) + "};\n"
  {
    FormattedNonEmpty(Hex(bytes), arrayName, |bytes| - 1);
    ElementCut(bytes, |bytes| - 1);
  }

  /** A non-empty encoding is the declaration, all elements but the last, and the last less its final character. */
  lemma FormattedNonEmpty(h: string, arrayName: string, n: nat)
    requires n + 1 == |h| / 2
    ensures FormattedArray(h, arrayName) ==
      Declaration(arrayName) + Elements(h, n) + DropLast(Element(h, n)) + "};\n"
  {
    var decl := Declaration(arrayName);
    UnfoldElements(h, n + 1);
    AppendAssoc(decl, Elements(h, n), Element(h, n));
    DropLastOfConcat(decl + Elements(h, n), Element(h, n));
  }

  lemma UnfoldElements(h: string, n: nat)
    requires 0 < n && 2 * n <= |h|
    ensures Elements(h, n) == Elements(h, n - 1) + Element(h, n - 1)
  {
  }

  /** With no bytes, the cut removes the declaration's newline and the braces close on one line. */
  lemma EmptyArray(arrayName: string)
    ensures FormattedArray("", arrayName) == "    constexpr uint8_t " + arrayName + "[] = {" + "};\n"
  {
    var decl := Declaration(arrayName);
    assert decl + Elements("", 0) == decl;
    assert decl[..|decl| - 1] == "    constexpr uint8_t " + arrayName + "[] = {";
  }

  /**
   * The last element as it survives the cut: the row's indent if it opens a row,
   * ` 0x` and the byte's digits, and the comma only when the element closed a full row.
   */
  function CutElement(bytes: seq<Byte>, i: nat): string
    requires i < |bytes|
  {
    Lead(i) + " 0x" + HexPair(bytes[i]) + (if i % 16 == 15 then "," else "")
  }

  lemma ElementCut(bytes: seq<Byte>, i: nat)
    requires i < |bytes|
    ensures DropLast(Element(Hex(bytes), i)) == CutElement(bytes, i)
  {
    ElementOfByte(bytes, i);
    DropLastOfConcat(Lead(i) + " 0x" + HexPair(bytes[i]), "," + Trail(i));
    assert DropLast("," + Trail(i)) == if i % 16 == 15 then "," else "";
  }

  // ---------------------------------------------------------------------------
  // Reading the literals back
  // ---------------------------------------------------------------------------

  /** Scans text for `0x` followed by two lower-case hex digits and collects the bytes they spell. */
  function ParseLiterals(s: string): seq<Byte>
    decreases |s|
  {
    if |s| < 4 then []
    else if s[0] == '0' && s[1] == 'x' && IsLowerHexDigit(s[2]) && IsLowerHexDigit(s[3]) then
      [16 * DigitValue(s[2]) + DigitValue(s[3])] + ParseLiterals(s[4..])
    else ParseLiterals(s[1..])
  }

  /** Reads back the bytes of an array emitted under `arrayName`: every literal after the opening brace. */
  function DecodeArray(text: string, arrayName: string): seq<Byte> {
    var start := |Declaration(arrayName)| - 1;
    if start <= |text| then ParseLiterals(text[start..]) else []
  }

  /** Text without the character `0` contributes nothing to the scan. */
  lemma {:induction false} SkipNoZero(p: string, rest: string)
    requires NoZero(p)
    ensures ParseLiterals(p + rest) == ParseLiterals(rest)
  {
    if p != [] {
      var s := p + rest;
      assert s[0] == p[0];
      assert s[1..] == p[1..] + rest;
      SkipNoZero(p[1..], rest);
      if |s| < 4 {
        assert |rest| < 4;
      } else {
        assert ParseLiterals(s) == ParseLiterals(s[1..]);
      }
    } else {
      assert p + rest == rest;
    }
  }

  lemma ReadOneLiteral(b: Byte, rest: string)
    ensures ParseLiterals("0x" + HexPair(b) + rest) == [b] + ParseLiterals(rest)
  {
    var p := HexPair(b);
    var s := "0x" + p + rest;
    assert s[0] == '0' && s[1] == 'x' && s[2] == p[0] && s[3] == p[1];
    assert s[4..] == rest;
    DigitValueOfHexDigit(b / 16);
    DigitValueOfHexDigit(b % 16);
  }

  predicate NoZero(p: string) {
    forall k :: 0 <= k < |p| ==> p[k] != '0'
  }

  /** Scanning one literal between texts without a `0` yields exactly its byte. */
  lemma ScanLiteral(b: Byte, lead: string, trail: string, rest: string)
    requires NoZero(lead) && NoZero(trail)
    ensures ParseLiterals(lead + " 0x" + HexPair(b) + trail + rest) == [b] + ParseLiterals(rest)
  {
    OpenLiteral(lead, HexPair(b), trail, rest);
    assert NoZero(lead + " ");
    SkipNoZero(lead + " ", "0x" + HexPair(b) + (trail + rest));
    ReadOneLiteral(b, trail + rest);
    SkipNoZero(trail, rest);
  }

  lemma NoZeroAround(i: nat)
    ensures NoZero(Lead(i)) && NoZero("," + Trail(i)) && NoZero(if i % 16 == 15 then "," else "")
  {
    assert NoZero(Indent);
    assert NoZero(",\n");
  }

  /** An element of an encoded byte sequence: the row's indent, ` 0x`, the digits, the comma and the row's newline. */
  lemma ElementOfByte(bytes: seq<Byte>, i: nat)
    requires i < |bytes|
    ensures Element(Hex(bytes), i) == Lead(i) + " 0x" + HexPair(bytes[i]) + ("," + Trail(i))
  {
    LiteralOfByte(bytes, i);
    Regroup(Lead(i), " 0x", HexPair(bytes[i]), ",", Trail(i));
  }

  lemma Regroup(a: string, x: string, p: string, c: string, t: string)
    ensures a + (x + p + c) + t == a + x + p + (c + t)
  {
  }

  /** Scanning one element yields exactly its byte. */
  lemma ScanElement(bytes: seq<Byte>, i: nat, rest: string)
    requires i < |bytes|
    ensures ParseLiterals(Element(Hex(bytes), i) + rest) == [bytes[i]] + ParseLiterals(rest)
  {
    ElementOfByte(bytes, i);
    NoZeroAround(i);
    ScanLiteral(bytes[i], Lead(i), "," + Trail(i), rest);
  }

  lemma {:induction false} ScanElements(bytes: seq<Byte>, n: nat, rest: string)
    requires n <= |bytes|
    ensures ParseLiterals(Elements(Hex(bytes), n) + rest) == bytes[..n] + ParseLiterals(rest)
  {
    if n > 0 {
      ScanElements(bytes, n - 1, Element(Hex(bytes), n - 1) + rest);
      ScanOneMore(bytes, n, rest);
    } else {
      AppendEmpty(rest);
    }
  }

  /** The inductive step of `ScanElements`: the last element spells the last byte. */
  lemma ScanOneMore(bytes: seq<Byte>, n: nat, rest: string)
    requires 0 < n <= |bytes|
    requires var h := Hex(bytes);
      ParseLiterals(Elements(h, n - 1) + (Element(h, n - 1) + rest)) ==
      bytes[..n - 1] + ParseLiterals(Element(h, n - 1) + rest)
    ensures ParseLiterals(Elements(Hex(bytes), n) + rest) == bytes[..n] + ParseLiterals(rest)
  {
    ScanElement(bytes, n - 1, rest);
    ConcatElements(Hex(bytes), n, rest);
    TakeSnoc(bytes, n);
    AppendAssoc(bytes[..n - 1], [bytes[n - 1]], ParseLiterals(rest));
  }

  /** The elements of `n` bytes followed by more text, regrouped around the last element. */
  lemma ConcatElements(h: string, n: nat, rest: string)
    requires 0 < n && 2 * n <= |h|
    ensures Elements(h, n) + rest == Elements(h, n - 1) + (Element(h, n - 1) + rest)
  {
    UnfoldElements(h, n);
    AppendAssoc(Elements(h, n - 1), Element(h, n - 1), rest);
  }

  lemma AppendAssoc<T>(a: seq<T>, b: seq<T>, c: seq<T>)
    ensures (a + b) + c == a + (b + c)
  {
  }

  lemma AppendEmpty<T>(a: seq<T>)
    ensures [] + a == a
  {
  }

  lemma TakeSnoc<T>(s: seq<T>, n: nat)
    requires 0 < n <= |s|
    ensures s[..n] == s[..n - 1] + [s[n - 1]]
  {
  }

  /** A non-empty text less its last character, as Python's `[:-1]` slice. */
  function DropLast(s: string): string
    requires |s| > 0
  {
    s[..|s| - 1]
  }

  /** Dropping the last character of a concatenation drops it from its right part. */
  lemma DropLastOfConcat(x: string, e: string)
    requires |e| > 0
    ensures DropLast(x + e) == x + DropLast(e)
  {
  }


  lemma DropLastOfAppend(x: string, c: char)
    ensures DropLast(x + [c]) == x
  {
  }

  /** Scanning an element whose last character was dropped still yields its byte. */
  lemma ScanCutElement(bytes: seq<Byte>, i: nat, rest: string)
    requires i < |bytes|
    ensures ParseLiterals(CutElement(bytes, i) + rest) == [bytes[i]] + ParseLiterals(rest)
  {
    NoZeroAround(i);
    ScanLiteral(bytes[i], Lead(i), if i % 16 == 15 then "," else "", rest);
  }

  /** Splits ` 0x` so that the scan can skip the blank in front of the `0`. */
  lemma OpenLiteral(a: string, p: string, t: string, r: string)
    ensures a + " 0x" + p + t + r == (a + " ") + ("0x" + p + (t + r))
  {
    assert " 0x" == " " + "0x";
  }

  /** What follows the declaration's last character `{` is its newline and then the rest. */
  lemma AfterBrace(arrayName: string, x: string)
    ensures var d := Declaration(arrayName);
      (d[..|d| - 1] + x)[|d| - 1..] == x
      && (d + x)[|d| - 1..] == "\n" + x
  {
  }

  lemma ParseCloseEmpty()
    ensures ParseLiterals("};\n") == []
  {
  }

  /** The encoding of no bytes holds no literal. */
  lemma RoundTripEmpty(arrayName: string)
    ensures DecodeArray(FormattedArray("", arrayName), arrayName) == []
  {
    var decl := Declaration(arrayName);
    assert decl + Elements("", 0) == decl;
    AfterBrace(arrayName, "};\n");
    ParseCloseEmpty();
  }

  /** Cutting the last character of `d + f + e`, closing it and reading on from the last character of `d`. */
  /** Reading on from the last character of `d`, which is a newline. */
  lemma FromLastOf(d: string, x: string)
    requires |d| > 0
    ensures |d| - 1 <= |d + x| && (d + x)[|d| - 1..] == [d[|d| - 1]] + x
  {
  }

  /** The text after the opening brace of a non-empty encoding: a newline, the elements, and the cut last element. */
  lemma FormattedTail(h: string, arrayName: string, n: nat)
    requires n + 1 == |h| / 2
    ensures |Declaration(arrayName)| - 1 <= |FormattedArray(h, arrayName)|
    ensures FormattedArray(h, arrayName)[|Declaration(arrayName)| - 1..] ==
      "\n" + (Elements(h, n) + (DropLast(Element(h, n)) + "};\n"))
  {
    var decl := Declaration(arrayName);
    var front := Elements(h, n);
    var cut := DropLast(Element(h, n));
    FormattedNonEmpty(h, arrayName, n);
    AppendAssoc4(decl, front, cut, "};\n");
    FromLastOf(decl, front + (cut + "};\n"));
    DeclarationEndsInNewline(arrayName);
  }

  lemma DeclarationEndsInNewline(arrayName: string)
    ensures |Declaration(arrayName)| > 0 && Declaration(arrayName)[|Declaration(arrayName)| - 1] == '\n'
  {
  }

  lemma AppendAssoc4<T>(a: seq<T>, b: seq<T>, c: seq<T>, d: seq<T>)
    ensures a + b + c + d == a + (b + (c + d))
  {
  }

  /** The literals after the opening brace of a non-empty encoding spell all of its bytes. */
  lemma ScanBody(bytes: seq<Byte>)
    requires |bytes| > 0
    ensures var h := Hex(bytes);
      var e := Element(h, |bytes| - 1);
      ParseLiterals(Elements(h, |bytes| - 1) + (DropLast(e) + "};\n")) == bytes
  {
    var n := |bytes|;
    var e := Element(Hex(bytes), n - 1);
    ScanElements(bytes, n - 1, DropLast(e) + "};\n");
    ScanLastElement(bytes);
    InitLast(bytes);
  }

  /** The cut last element, closed by `};`, reads back as the last byte. */
  lemma ScanLastElement(bytes: seq<Byte>)
    requires |bytes| > 0
    ensures ParseLiterals(DropLast(Element(Hex(bytes), |bytes| - 1)) + "};\n") == [bytes[|bytes| - 1]]
  {
    var i := |bytes| - 1;
    ElementCut(bytes, i);
    ScanCutElement(bytes, i, "};\n");
    ParseCloseEmpty();
  }

  lemma InitLast<T>(s: seq<T>)
    requires |s| > 0
    ensures s[..|s| - 1] + [s[|s| - 1]] == s
  {
  }

  /** Round trip: reading the literals of an encoded array gives back exactly the original bytes. */
  lemma RoundTrip(bytes: seq<Byte>, arrayName: string)
    ensures DecodeArray(FormattedArray(Hex(bytes), arrayName), arrayName) == bytes
  {
    var n := |bytes|;
    var h := Hex(bytes);
    if n == 0 {
      RoundTripEmpty(arrayName);
    } else {
      var body := Elements(h, n - 1) + (DropLast(Element(h, n - 1)) + "};\n");
      FormattedTail(h, arrayName, n - 1);
      assert NoZero("\n");
      SkipNoZero("\n", body);
      ScanBody(bytes);
    }
  }

  // ---------------------------------------------------------------------------
  // Symbol names
  // ---------------------------------------------------------------------------

  /** `s.rsplit(".")[0]`: without a limit every dot splits, so this is the text before the first dot. */
  function FirstField(s: string): (f: string)
    ensures |f| <= |s| && f == s[..|f|]
    ensures forall k :: 0 <= k < |f| ==> f[k] != '.'
    ensures |f| < |s| ==> s[|f|] == '.'
  {
    if s == [] || s[0] == '.' then "" else [s[0]] + FirstField(s[1..])
  }

  /** The array name of a compiled file: its name up to the first dot, then `Script`. */
  function SymbolName(fileName: string): (name: string)
    ensures |name| >= 6 && name[|name| - 6..] == "Script"
    ensures |name| - 6 <= |fileName| && name[..|name| - 6] == fileName[..|name| - 6]
    ensures forall k :: 0 <= k < |name| - 6 ==> name[k] != '.'
    ensures |name| - 6 < |fileName| ==> fileName[|name| - 6] == '.'
  {
    FirstField(fileName) + "Script"
  }

  // ---------------------------------------------------------------------------
  // Shader classification and compilation
  // ---------------------------------------------------------------------------

  /** Python's `t in s` for strings: `t` occurs in `s` at some offset. */
  predicate Contains(s: string, t: string)
    decreases |s|
  {
    |t| <= |s| && (s[..|t|] == t || Contains(s[1..], t))
  }

  lemma {:induction false} ContainsAt(s: string, t: string, i: nat)
    requires i + |t| <= |s| && s[i..i + |t|] == t
    ensures Contains(s, t)
  {
    if i > 0 {
      assert s[1..][i - 1..i - 1 + |t|] == s[i..i + |t|];
      ContainsAt(s[1..], t, i - 1);
    }
  }

  lemma {:induction false} ContainsWitness(s: string, t: string) returns (i: nat)
    requires Contains(s, t)
    ensures i + |t| <= |s| && s[i..i + |t|] == t
  {
    if s[..|t|] == t {
      i := 0;
    } else {
      var j := ContainsWitness(s[1..], t);
      assert s[1..][j..j + |t|] == s[j + 1..j + 1 + |t|];
      i := j + 1;
    }
  }

  datatype Stage = Vert | Frag

  /** A file is a vertex shader when its name holds `Vert` and `hlsl`, else a fragment shader when it holds `Frag` and `hlsl`. */
  function Classify(fileName: string): (r: Option<Stage>)
    ensures r == Some(Vert) <==> Contains(fileName, "Vert") && Contains(fileName, "hlsl")
    ensures r == Some(Frag) <==> !Contains(fileName, "Vert") && Contains(fileName, "Frag") && Contains(fileName, "hlsl")
    ensures r == None <==> !Contains(fileName, "hlsl") || (!Contains(fileName, "Vert") && !Contains(fileName, "Frag"))
  {
    if Contains(fileName, "Vert") && Contains(fileName, "hlsl") then Some(Vert)
    else if Contains(fileName, "Frag") && Contains(fileName, "hlsl") then Some(Frag)
    else None
  }

  /** The `dxc.exe` target profile: the pixel-shader profile only for the `Frag` stage. */
  function Profile(stage: Stage): string {
    if stage == Frag then "ps_6_0" else "vs_6_0"
  }

  /** The argument vector of one `dxc.exe` run; its output is the source path with `.spv` appended. */
  function CompileShaderArgs(shaderPathName: string, stage: Stage): (args: seq<string>)
    ensures |args| == 9 && args[0] == "dxc.exe" && args[1] == "-spirv"
    ensures args[3] == "ps_6_0" <==> stage == Frag
    ensures args[3] == "vs_6_0" <==> stage == Vert
    ensures args[6] == shaderPathName && args[8] == shaderPathName + ".spv"
  {
    ["dxc.exe", "-spirv", "-T", Profile(stage), "-E", "main", shaderPathName, "-Fo", shaderPathName + ".spv"]
  }

  /** The `dxc.exe` run one listed file causes, if any: a classified file is compiled under its stage. */
  function RunFor(path: string, fileName: string): seq<seq<string>> {
    match Classify(fileName)
    case Some(stage) => [CompileShaderArgs(path + "\\" + fileName, stage)]
    case None => []
  }

  /** The `dxc.exe` runs for a folder listing, in listing order. */
  function CompileRuns(path: string, fileNames: seq<string>): seq<seq<string>> {
    if fileNames == [] then [] else CompileRuns(path, fileNames[..|fileNames| - 1]) + RunFor(path, fileNames[|fileNames| - 1])
  }

  /** Compiles every vertex and fragment shader of a folder; returns the `dxc.exe` argument vectors in order. */
  method CompileShadersInFolder(path: string, fileNames: seq<string>) returns (runs: seq<seq<string>>)
    ensures runs == CompileRuns(path, fileNames)
  {
    runs := [];
    for k := 0 to |fileNames|
      invariant runs == CompileRuns(path, fileNames[..k])
    {
      var fileName := fileNames[k];
      if Contains(fileName, "Vert") && Contains(fileName, "hlsl") {
        runs := runs + [CompileShaderArgs(path + "\\" + fileName, Vert)];
      } else if Contains(fileName, "Frag") && Contains(fileName, "hlsl") {
        runs := runs + [CompileShaderArgs(path + "\\" + fileName, Frag)];
      }
      assert fileNames[..k + 1][..k] == fileNames[..k];
    }
    assert fileNames[..|fileNames|] == fileNames;
  }

  /** Every run compiles a listed, classified file under its own stage, and every such file is compiled. */
  lemma {:induction false} CompileRunsExactlyClassified(path: string, fileNames: seq<string>)
    ensures forall r :: r in CompileRuns(path, fileNames) ==>
      exists name :: name in fileNames && Classify(name).Some? && r == CompileShaderArgs(path + "\\" + name, Classify(name).value)
    ensures forall name :: name in fileNames && Classify(name).Some? ==>
      CompileShaderArgs(path + "\\" + name, Classify(name).value) in CompileRuns(path, fileNames)
  {
    if fileNames != [] {
      var init := fileNames[..|fileNames| - 1];
      var last := fileNames[|fileNames| - 1];
      CompileRunsExactlyClassified(path, init);
      assert fileNames == init + [last];
      forall name | name in fileNames && Classify(name).Some?
        ensures CompileShaderArgs(path + "\\" + name, Classify(name).value) in CompileRuns(path, fileNames)
      {
        if name != last {
          assert name in init;
        }
      }
    }
  }

  function OutputOf(fileName: string): seq<string> {
    if Classify(fileName).Some? then [fileName + ".spv"] else []
  }

  /** The file a compiled shader leaves beside its source: the source name with `.spv` appended. */
  function SpirvOutputs(fileNames: seq<string>): seq<string> {
    if fileNames == [] then []
    else SpirvOutputs(fileNames[..|fileNames| - 1]) + OutputOf(fileNames[|fileNames| - 1])
  }

  lemma {:induction false} SpirvOutputsOfClassified(fileNames: seq<string>)
    ensures forall o :: o in SpirvOutputs(fileNames) ==>
      exists name :: name in fileNames && Classify(name).Some? && o == name + ".spv"
    ensures forall name :: name in fileNames && Classify(name).Some? ==> name + ".spv" in SpirvOutputs(fileNames)
  {
    if fileNames != [] {
      var init := fileNames[..|fileNames| - 1];
      var last := fileNames[|fileNames| - 1];
      SpirvOutputsOfClassified(init);
      assert fileNames == init + [last];
      forall name | name in fileNames && Classify(name).Some?
        ensures name + ".spv" in SpirvOutputs(fileNames)
      {
        if name != last {
          assert name in init;
        }
      }
    }
  }

  // ---------------------------------------------------------------------------
  // Deleting stale SPIR-V and generating the header
  // ---------------------------------------------------------------------------

  function KeptOf(fileName: string): seq<string> {
    if Contains(fileName, ".spv") then [] else [fileName]
  }

  function RemovedOf(path: string, fileName: string): seq<string> {
    if Contains(fileName, ".spv") then [path + "\\" + fileName] else []
  }

  /** The listing left after the stale-SPIR-V deletion: the files whose name does not hold `.spv`. */
  function Kept(fileNames: seq<string>): seq<string> {
    if fileNames == [] then []
    else Kept(fileNames[..|fileNames| - 1]) + KeptOf(fileNames[|fileNames| - 1])
  }

  /** The paths the deletion removes: every listed file whose name holds `.spv`, in listing order. */
  function Removed(path: string, fileNames: seq<string>): seq<string> {
    if fileNames == [] then []
    else Removed(path, fileNames[..|fileNames| - 1]) + RemovedOf(path, fileNames[|fileNames| - 1])
  }

  /** Removes every file of a folder whose name holds `.spv`; returns the removed paths in order. */
  method DeleteSpirvInFolder(path: string, fileNames: seq<string>) returns (removed: seq<string>)
    ensures removed == Removed(path, fileNames)
  {
    removed := [];
    for k := 0 to |fileNames|
      invariant removed == Removed(path, fileNames[..k])
    {
      var fileName := fileNames[k];
      if Contains(fileName, ".spv") {
        removed := removed + [path + "\\" + fileName];
      }
      assert fileNames[..k + 1][..k] == fileNames[..k];
    }
    assert fileNames[..|fileNames|] == fileNames;
  }

  /** Joining a folder path and a file name loses nothing: distinct names give distinct paths. */
  lemma JoinInjective(path: string, a: string, b: string)
    requires path + "\\" + a == path + "\\" + b
    ensures a == b
  {
    assert a == (path + "\\" + a)[|path| + 1..];
    assert b == (path + "\\" + b)[|path| + 1..];
  }

  /** The deletion removes only listed files whose name holds `.spv`. */
  lemma {:induction false} RemovedAreSpirv(path: string, fileNames: seq<string>)
    ensures forall r :: r in Removed(path, fileNames) ==>
      exists name :: name in fileNames && Contains(name, ".spv") && r == path + "\\" + name
  {
    if fileNames != [] {
      var init := fileNames[..|fileNames| - 1];
      RemovedAreSpirv(path, init);
      assert fileNames == init + [fileNames[|fileNames| - 1]];
    }
  }

  /** A listed file is removed exactly when its name holds `.spv`, and kept exactly when it does not. */
  lemma {:induction false} DeletionSplitsListing(path: string, fileNames: seq<string>)
    ensures forall name :: name in fileNames ==> (path + "\\" + name in Removed(path, fileNames) <==> Contains(name, ".spv"))
    ensures forall name :: name in Kept(fileNames) <==> name in fileNames && !Contains(name, ".spv")
  {
    if fileNames != [] {
      var init := fileNames[..|fileNames| - 1];
      var last := fileNames[|fileNames| - 1];
      DeletionSplitsListing(path, init);
      RemovedAreSpirv(path, init);
      assert fileNames == init + [last];
      assert Removed(path, fileNames) == Removed(path, init) + RemovedOf(path, last);
      forall name | name in fileNames
        ensures path + "\\" + name in Removed(path, fileNames) <==> Contains(name, ".spv")
      {
        if name != last {
          assert name in init;
          if path + "\\" + name == path + "\\" + last {
            JoinInjective(path, name, last);
          }
        } else if path + "\\" + name in Removed(path, init) {
          var other :| other in init && Contains(other, ".spv") && path + "\\" + name == path + "\\" + other;
          JoinInjective(path, name, other);
        }
      }
    }
  }

  lemma SpvSuffix(name: string)
    ensures Contains(name + ".spv", ".spv")
  {
    ContainsAt(name + ".spv", ".spv", |name|);
  }

  /**
   * Regenerating a folder leaves no stale SPIR-V: once the deletion and the
   * compilation have run, the files whose name holds `.spv` are exactly the
   * outputs of the shaders just compiled, one per classified source file.
   */
  lemma RegeneratedSpirvIsFresh(fileNames: seq<string>)
    ensures var after := Kept(fileNames) + SpirvOutputs(Kept(fileNames));
      forall f :: f in after && Contains(f, ".spv") ==>
        exists name :: name in fileNames && !Contains(name, ".spv") && Classify(name).Some? && f == name + ".spv"
    ensures var after := Kept(fileNames) + SpirvOutputs(Kept(fileNames));
      forall name :: name in fileNames && !Contains(name, ".spv") && Classify(name).Some? ==>
        name + ".spv" in after && Contains(name + ".spv", ".spv")
  {
    var kept := Kept(fileNames);
    DeletionSplitsListing("", fileNames);
    SpirvOutputsOfClassified(kept);
    forall name | name in fileNames && !Contains(name, ".spv") && Classify(name).Some?
      ensures Contains(name + ".spv", ".spv")
    {
      SpvSuffix(name);
    }
  }

  /** The fixed text that opens the generated header. */
  const Preamble: string :=
    "// ATTENTION: This file is generated from HLSL shaders and the GenerateShaderHeader.py. Don't edit it manually!\n"
    + "#pragma once\n\n"
    + "namespace Hedge\n"
    + "{\n"

  /** One entry of a folder listing: a file name and, when read, its bytes. */
  datatype FileEntry = FileEntry(name: string, content: seq<Byte>)

  /** What one file adds to the header: its array and a newline when its name holds `.spv`, else nothing. */
  function Block(f: FileEntry): string {
    if Contains(f.name, ".spv") then FormattedArray(Hex(f.content), SymbolName(f.name)) + "\n" else ""
  }

  /** The text a folder contributes: the blocks of its files in listing order. */
  function FolderBlocks(files: seq<FileEntry>): string {
    if files == [] then "" else FolderBlocks(files[..|files| - 1]) + Block(files[|files| - 1])
  }

  function AllBlocks(folders: seq<seq<FileEntry>>): string {
    if folders == [] then "" else AllBlocks(folders[..|folders| - 1]) + FolderBlocks(folders[|folders| - 1])
  }

  /** The header file: the preamble, every folder's blocks in order, and a lone `}` without a newline. */
  function HeaderText(folders: seq<seq<FileEntry>>): string {
    Preamble + AllBlocks(folders) + "}"
  }

  lemma FolderBlocksSnoc(files: seq<FileEntry>, j: nat)
    requires j < |files|
    ensures FolderBlocks(files[..j + 1]) == FolderBlocks(files[..j]) + Block(files[j])
  {
    assert files[..j + 1][..j] == files[..j];
  }

  lemma AllBlocksSnoc(folders: seq<seq<FileEntry>>, i: nat)
    requires i < |folders|
    ensures AllBlocks(folders[..i + 1]) == AllBlocks(folders[..i]) + FolderBlocks(folders[i])
  {
    assert folders[..i + 1][..i] == folders[..i];
  }

  /** Writes the header for the listed shader folders. */
  method GenerateHeader(folders: seq<seq<FileEntry>>) returns (header: string)
    ensures header == HeaderText(folders)
  {
    header := GeneratePreShaderArrayStr();
    ghost var pre := header;
    for i := 0 to |folders|
      invariant header == pre + AllBlocks(folders[..i])
    {
      var files := folders[i];
      for j := 0 to |files|
        invariant header == pre + AllBlocks(folders[..i]) + FolderBlocks(files[..j])
      {
        var f := files[j];
        ghost var before := header;
        if Contains(f.name, ".spv") {
          var arrayStr := GenerateShaderFormatedArray(Hex(f.content), FirstField(f.name) + "Script");
          header := header + arrayStr;
          header := header + "\n";
          AppendAssoc(before, arrayStr, "\n");
        } else {
          AppendEmptyRight(header);
        }
        FolderBlocksSnoc(files, j);
        AppendAssoc(pre + AllBlocks(folders[..i]), FolderBlocks(files[..j]), Block(f));
      }
      assert files[..|files|] == files;
      AllBlocksSnoc(folders, i);
      AppendAssoc(pre, AllBlocks(folders[..i]), FolderBlocks(files));
    }
    assert folders[..|folders|] == folders;
    header := header + "}";
  }

  method GeneratePreShaderArrayStr() returns (preShadersStr: string)
    ensures preShadersStr == Preamble
  {
    preShadersStr := "// ATTENTION: This file is generated from HLSL shaders and the GenerateShaderHeader.py. Don't edit it manually!\n";
    preShadersStr := preShadersStr + "#pragma once\n\n";
    preShadersStr := preShadersStr + "namespace Hedge\n";
    preShadersStr := preShadersStr + "{\n";
  }

  /** Files whose name lacks `.spv` leave no trace in the header. */
  lemma OnlySpirvEmbedded(files: seq<FileEntry>, other: FileEntry)
    requires !Contains(other.name, ".spv")
    ensures FolderBlocks(files + [other]) == FolderBlocks(files)
  {
    assert (files + [other])[..|files|] == files;
  }
}
