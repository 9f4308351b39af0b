/** The strings hashed by document_hashing.py and what they identify. */
module Hashing {

  datatype DocumentType =
    | Extension
    | CrawledUrl
    | File
    | ObsidianConnector
    | Note
    | ComposioGoogleDriveConnector
  {
    function Value(): string {
      match this
      case Extension => "EXTENSION"
      case CrawledUrl => "CRAWLED_URL"
      case File => "FILE"
      case ObsidianConnector => "OBSIDIAN_CONNECTOR"
      case Note => "NOTE"
      case ComposioGoogleDriveConnector => "COMPOSIO_GOOGLE_DRIVE_CONNECTOR"
    }
  }

  lemma TypeValuesDistinct(kind: DocumentType, kind': DocumentType)
    ensures ':' !in kind.Value()
    ensures kind.Value() == kind'.Value() ==> kind == kind'
  {
    var v, w := kind.Value(), kind'.Value();
    assert |v| == |w| ==> v[0] != w[0] || kind == kind';
  }

  function Digit(d: nat): char
    requires d < 10
  {
    "0123456789"[d]
  }

  /** Decimal rendering of a search space id, as an f-string prints it. */
  function Decimal(n: nat): (s: string)
    ensures s != [] && ':' !in s
  {
    if n < 10 then [Digit(n)] else Decimal(n / 10) + [Digit(n % 10)]
  }

  function UniqueIdentifierKey(kind: DocumentType, uniqueId: string, space: nat): string {
    kind.Value() + ":" + uniqueId + ":" + Decimal(space)
  }

  function ContentKey(space: nat, markdown: string): string {
    Decimal(space) + ":" + markdown
  }

  lemma {:induction false} DecimalInjective(m: nat, n: nat)
    requires Decimal(m) == Decimal(n)
    ensures m == n
  {
    var s, t := Decimal(m), Decimal(n);
    if m < 10 || n < 10 {
    } else {
      assert s[..|s| - 1] == Decimal(m / 10) && t[..|t| - 1] == Decimal(n / 10);
      DecimalInjective(m / 10, n / 10);
      assert s[|s| - 1] == Digit(m % 10) && t[|t| - 1] == Digit(n % 10);
    }
  }

  /** The text before the first colon, and hence the text after it, can be read back. */
  lemma FirstColonSplits(a: string, x: string, b: string, y: string)
    requires ':' !in a && ':' !in b
    requires a + ":" + x == b + ":" + y
    ensures a == b && x == y
  {
    var s, t := a + ":" + x, b + ":" + y;
    assert s[|a|] == ':' && t[|b|] == ':';
    assert forall k :: 0 <= k < |a| ==> s[k] == a[k];
    assert forall k :: 0 <= k < |b| ==> t[k] == b[k];
    assert a == s[..|a|] && b == t[..|b|];
    assert x == s[|a| + 1..] && y == t[|b| + 1..];
  }

  /** Likewise the text after the last colon. */
  lemma LastColonSplits(x: string, a: string, y: string, b: string)
    requires ':' !in a && ':' !in b
    requires x + ":" + a == y + ":" + b
    ensures a == b && x == y
  {
    var s, t := x + ":" + a, y + ":" + b;
    assert s[|x|] == ':' && t[|y|] == ':';
    assert forall k :: |x| < k < |s| ==> s[k] == a[k - |x| - 1];
    assert forall k :: |y| < k < |t| ==> t[k] == b[k - |y| - 1];
    assert x == s[..|x|] && y == t[..|y|];
    assert a == s[|x| + 1..] && b == t[|y| + 1..];
  }

  lemma KeyRegroups(kind: DocumentType, uniqueId: string, space: nat)
    ensures UniqueIdentifierKey(kind, uniqueId, space) == kind.Value() + ":" + (uniqueId + ":" + Decimal(space))
  {
  }

  /** Type, id and search space can all be read back, whatever colons the id contains. */
  lemma UniqueIdentifierKeyInjective(kind: DocumentType, uniqueId: string, space: nat,
                                     kind': DocumentType, uniqueId': string, space': nat)
    requires UniqueIdentifierKey(kind, uniqueId, space) == UniqueIdentifierKey(kind', uniqueId', space')
    ensures kind == kind' && uniqueId == uniqueId' && space == space'
  {
    TypeValuesDistinct(kind, kind');
    TypeValuesDistinct(kind', kind);
    KeyRegroups(kind, uniqueId, space);
    KeyRegroups(kind', uniqueId', space');
    FirstColonSplits(kind.Value(), uniqueId + ":" + Decimal(space), kind'.Value(), uniqueId' + ":" + Decimal(space'));
    LastColonSplits(uniqueId, Decimal(space), uniqueId', Decimal(space'));
    DecimalInjective(space, space');
  }

  lemma {:induction false} DecimalStartsWithDigit(n: nat)
    ensures Decimal(n)[0] <= '9'
  {
    if n >= 10 {
      DecimalStartsWithDigit(n / 10);
    }
  }

  /** A document type is never the rendering of a number. */
  lemma TypeIsNoNumber(kind: DocumentType, n: nat)
    ensures kind.Value() != Decimal(n)
  {
    DecimalStartsWithDigit(n);
    assert kind.Value()[0] > '9';
  }

  lemma ContentKeyInjective(space: nat, markdown: string, space': nat, markdown': string)
    requires ContentKey(space, markdown) == ContentKey(space', markdown')
    ensures space == space' && markdown == markdown'
  {
    FirstColonSplits(Decimal(space), markdown, Decimal(space'), markdown');
    DecimalInjective(space, space');
  }

  lemma TwelveInDecimal()
    ensures Decimal(12) == "12"
  {
    assert Decimal(1) == "1";
  }

  /** The strings that are hashed, on an example with a colon in the id. */
  lemma KeysOfAnExample()
    ensures UniqueIdentifierKey(DocumentType.File, "a:b.pdf", 12) == "FILE:a:b.pdf:12"
    ensures ContentKey(12, "# A") == "12:# A"
  {
    TwelveInDecimal();
  }

  /** The names of the document types, which every stored identifier hash contains. */
  lemma TypeNames()
    ensures DocumentType.Extension.Value() == "EXTENSION" && CrawledUrl.Value() == "CRAWLED_URL"
    ensures DocumentType.File.Value() == "FILE" && ObsidianConnector.Value() == "OBSIDIAN_CONNECTOR"
    ensures Note.Value() == "NOTE" && ComposioGoogleDriveConnector.Value() == "COMPOSIO_GOOGLE_DRIVE_CONNECTOR"
  {
  }
}
