/** Reading an uploaded file and handing it to the right parser
    (src/parsers/index.ts): the encoding is chosen from the first bytes and
    the file name, and the dialect from the file name and content markers.
    The UTF-16LE and UTF-8 decoders are foreign and are passed in as
    functions; the windows-1251 decoding is the byte loop of
    `Windows1251.Decode`. */
module Intake {
  import opened Wrappers
  import opened Text
  import opened Ledger
  import W = Windows1251
  import ObbText
  import DskXml
  import ObbXml

  datatype Encoding = Utf16Le | Utf8 | Windows1251

  datatype Dialect = ObbXmlDialect | DskXmlDialect | ObbTextDialect

  /** Some byte among the first five is `<` (0x3C). */
  predicate AngleInFirstFive(bytes: seq<W.Byte>) {
    exists i :: 0 <= i < |bytes| && i < 5 && bytes[i] == 0x3C
  }

  /** The lower-cased file name ends with `.xml`. */
  predicate XmlName(fileName: String) {
    EndsWith(ToLower(fileName), ".xml")
  }

  /** The encoding `readFileAsText` decodes with: a UTF-16LE byte-order mark
      first, then a `<` in the first five bytes or an `.xml` name for UTF-8,
      and windows-1251 otherwise. */
  function ChooseEncoding(bytes: seq<W.Byte>, fileName: String): (e: Encoding)
    ensures |bytes| >= 2 && bytes[0] == 0xFF && bytes[1] == 0xFE ==> e == Utf16Le
    ensures e == Windows1251 ==> !XmlName(fileName)
  {
    if |bytes| >= 2 && bytes[0] == 0xFF && bytes[1] == 0xFE then Utf16Le
    else if AngleInFirstFive(bytes) || XmlName(fileName) then Utf8
    else Windows1251
  }

  /** Which branch is taken, in both directions: the byte-order mark wins
      over every XML sign, and windows-1251 is used exactly when there is
      neither a mark nor any XML sign. */
  lemma EncodingRules(bytes: seq<W.Byte>, fileName: String)
    ensures var e := ChooseEncoding(bytes, fileName);
      var bom := |bytes| >= 2 && bytes[0] == 0xFF && bytes[1] == 0xFE;
      (e == Utf16Le <==> bom) &&
      (e == Utf8 <==> !bom && (AngleInFirstFive(bytes) || XmlName(fileName))) &&
      (e == Windows1251 <==> !bom && !AngleInFirstFive(bytes) && !XmlName(fileName))
  {
  }

  /** A `<` as the first byte selects UTF-8 whatever the name, when there is
      no byte-order mark. */
  lemma LeadingAngleIsUtf8(bytes: seq<W.Byte>, fileName: String)
    requires |bytes| > 0 && bytes[0] == 0x3C
    ensures ChooseEncoding(bytes, fileName) == Utf8
  {
    assert AngleInFirstFive(bytes);
  }

  /** `readFileAsText` once the buffer is read: the chosen decoder applied
      to the bytes. */
  method ReadFileAsText(bytes: array<W.Byte>, fileName: String,
                        decodeUtf16: seq<W.Byte> -> String, decodeUtf8: seq<W.Byte> -> String)
    returns (content: String)
    ensures content == match ChooseEncoding(bytes[..], fileName)
                       case Utf16Le => decodeUtf16(bytes[..])
                       case Utf8 => decodeUtf8(bytes[..])
                       case Windows1251 => W.DecodeAll(bytes[..])
  {
    if bytes.Length >= 2 && bytes[0] == 0xFF && bytes[1] == 0xFE {
      return decodeUtf16(bytes[..]);
    }
    var isXml := AngleInFirstFive(bytes[..]) || XmlName(fileName);
    if isXml {
      content := decodeUtf8(bytes[..]);
    } else {
      content := W.Decode(bytes);
      assert content == W.DecodeAll(bytes[..]);
    }
  }

  /** The content is XML when the name ends with `.xml` in any letter case or
      the trimmed content starts with `<`. */
  predicate IsXml(content: String, fileName: String) {
    XmlName(fileName) || StartsWith(Trim(content), "<")
  }

  /** The `<STATEMENT>` root of the OBB export, also in its spaced-out
      spelling. */
  predicate HasStatementTag(content: String) {
    Contains(content, "<STATEMENT>") || Contains(content, "< S T A T E M E N T >")
  }

  /** `parseFile`'s choice of parser. */
  function SelectDialect(content: String, fileName: String): (d: Dialect)
    ensures d == ObbTextDialect ==> !XmlName(fileName)
  {
    if IsXml(content, fileName) then
      if HasStatementTag(content) then ObbXmlDialect else DskXmlDialect
    else ObbTextDialect
  }

  /** Each parser is chosen exactly in its case: XML with the statement tag
      goes to the OBB XML parser, other XML to the DSK parser, and anything
      that is not XML to the text parser. */
  lemma DispatchRules(content: String, fileName: String)
    ensures var d := SelectDialect(content, fileName);
      (d == ObbXmlDialect <==> IsXml(content, fileName) && HasStatementTag(content)) &&
      (d == DskXmlDialect <==> IsXml(content, fileName) && !HasStatementTag(content)) &&
      (d == ObbTextDialect <==> !IsXml(content, fileName))
  {
  }

  /** Leading whitespace before `<` does not hide XML. */
  lemma IndentedXml(blank: String, rest: String, fileName: String)
    requires forall i :: 0 <= i < |blank| ==> IsWhitespace(blank[i])
    requires |rest| > 0 && rest[0] == '<'
    ensures IsXml(blank + rest, fileName)
  {
    var s := blank + rest;
    assert s[|blank|] == '<';
    TrimStartSkips(s, |blank|);
    assert s[|blank|..] == rest;
    TrimEndKeepsHead(rest);
  }

  /** `parseFile`: the statement of the chosen parser. The XML documents
      stand for what the DOM parser extracts from `content`. */
  method ParseFile(content: String, fileName: String, obbDoc: ObbXml.Document, dskDoc: DskXml.Document)
    returns (r: Result<BankStatement, ParseError>)
    ensures r == match SelectDialect(content, fileName)
                 case ObbXmlDialect => ObbXml.Statement(obbDoc)
                 case DskXmlDialect => DskXml.Statement(content, dskDoc)
                 case ObbTextDialect => ObbText.Statement(content)
  {
    var isXml := XmlName(fileName) || StartsWith(Trim(content), "<");
    if isXml {
      if Contains(content, "<STATEMENT>") || Contains(content, "< S T A T E M E N T >") {
        r := ObbXml.ParseObbXml(obbDoc);
      } else {
        r := DskXml.ParseDskXml(content, dskDoc);
      }
    } else {
      r := ObbText.ParseObbTxt(content);
    }
  }
}
