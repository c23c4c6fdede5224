/** Stripping a package archive to its export data: the archive's magic, its first member's
    header and content, and the byte that pads it to an even length. */
module ExportArchive {
  import opened Ids
  import opened Text

  const MAGIC: Bytes := [0x21, 0x3C, 0x61, 0x72, 0x63, 0x68, 0x3E, 0x0A]           // !<arch>, newline
  const PKGDEF: Bytes := [0x5F, 0x5F, 0x2E, 0x50, 0x4B, 0x47, 0x44, 0x45, 0x46]    // __.PKGDEF
  const HEADER_END: Bytes := [0x60, 0x0A]
  const SLASH: Byte := 0x2F
  const HEADER_LEN := 60
  const PREFIX_LEN := 68
  const MAX_INT64 := 0x7FFF_FFFF_FFFF_FFFF
  const MIN_INT64 := -0x8000_0000_0000_0000

  /******* The size field *******/

  predicate IsDigit(b: Byte) {
    0x30 <= b <= 0x39
  }

  function DigitsValue(s: Bytes): (v: Option<nat>)
    ensures v.Some? ==> v.value < Pow10(|s|)
  {
    if s == [] then Some(0)
    else if !IsDigit(s[|s| - 1]) then None
    else match DigitsValue(s[..|s| - 1])
         case None => None
         case Some(high) => Some(10 * high + (s[|s| - 1] - 0x30) as int)
  }

  function Pow10(n: nat): nat {
    if n == 0 then 1 else 10 * Pow10(n - 1)
  }

  /** A decimal with an optional sign, as a 64-bit integer. */
  function ParseInt(s: Bytes): Option<int> {
    var signed := s != [] && (s[0] == 0x2B || s[0] == 0x2D);
    var digits := if signed then s[1..] else s;
    if digits == [] then None
    else match DigitsValue(digits)
         case None => None
         case Some(v) =>
           var value: int := if signed && s[0] == 0x2D then -(v as int) else v as int;
           if MIN_INT64 <= value <= MAX_INT64 then Some(value) else None
  }

  lemma {:induction false} Pow10Grows(m: nat, n: nat)
    requires m <= n
    ensures 0 < Pow10(m) <= Pow10(n)
  {
    if m < n {
      Pow10Grows(m, n - 1);
    } else if m > 0 {
      Pow10Grows(m - 1, m - 1);
    }
  }

  function Digits(n: nat): Bytes {
    if n < 10 then [(0x30 + n) as Byte] else Digits(n / 10) + [(0x30 + n % 10) as Byte]
  }

  lemma {:induction false} DigitsRoundTrip(n: nat)
    ensures DigitsValue(Digits(n)) == Some(n)
    ensures Digits(n) != [] && IsDigit(Digits(n)[0]) && IsDigit(Digits(n)[|Digits(n)| - 1])
  {
    var s := Digits(n);
    if n < 10 {
      assert s[..0] == [];
    } else {
      DigitsRoundTrip(n / 10);
      assert s[..|s| - 1] == Digits(n / 10);
    }
  }

  /******* The member header *******/

  datatype Member = Member(name: Bytes, size: nat)

  function TrimSuffix(s: Bytes, b: Byte): Bytes {
    if s != [] && s[|s| - 1] == b then s[..|s| - 1] else s
  }

  function ArchiveMemberHeader(header: Bytes): Option<Member> {
    if |header| < HEADER_LEN || header[58..60] != HEADER_END then None
    else
      var name := TrimSuffix(TrimSpace(header[..16]), SLASH);
      match ParseInt(TrimSpace(header[48..58]))
      case None => None
      case Some(size) => if size < 0 then None else Some(Member(name, size))
  }

  function PackageArchiveExportSize(data: Bytes): Option<nat> {
    if |data| < PREFIX_LEN || data[..8] != MAGIC then None
    else match ArchiveMemberHeader(data[8..68])
         case None => None
         case Some(m) => if m.name == PKGDEF then Some(m.size) else None
  }

  /** The field is ten characters, so the size is below ten to the tenth: neither it nor
      its padded form can overflow, and the range check of the parse never fires. */
  lemma SizeCannotOverflow(header: Bytes)
    requires ArchiveMemberHeader(header).Some?
    ensures ArchiveMemberHeader(header).value.size < 10_000_000_000
    ensures ArchiveMemberHeader(header).value.size + 1 + PREFIX_LEN <= MAX_INT64
  {
    var field := TrimSpace(header[48..58]);
    var digits := if field != [] && (field[0] == 0x2B || field[0] == 0x2D) then field[1..] else field;
    assert |digits| <= 10;
    Pow10Grows(|digits|, 10);
    TenToTheTenth();
  }

  lemma TenToTheTenth()
    ensures Pow10(10) == 10_000_000_000
  {
    assert Pow10(5) == 100_000;
    assert Pow10(8) == 100_000_000;
  }

  /******* Stripping *******/

  datatype Strip =
    | NotAnArchive            // not a package archive: left alone
    | Truncated               // the export data is cut short: an error
    | Stripped(kept: Bytes)

  function StripToExport(data: Bytes): Strip {
    if |data| < PREFIX_LEN then NotAnArchive
    else match PackageArchiveExportSize(data[..PREFIX_LEN])
         case None => NotAnArchive
         case Some(size) =>
           var copySize := if size % 2 != 0 then size + 1 else size;
           if |data| - PREFIX_LEN < copySize then Truncated
           else Stripped(data[..PREFIX_LEN] + data[PREFIX_LEN..PREFIX_LEN + copySize])
  }

  /** What is kept is the input up to the end of the padded member, and it is a package
      archive with the same member that strips to itself. */
  lemma StripKeepsPrefix(data: Bytes)
    requires StripToExport(data).Stripped?
    ensures
      var kept := StripToExport(data).kept;
      var size := PackageArchiveExportSize(data);
      && size.Some? && kept <= data
      && |kept| == PREFIX_LEN + size.value + size.value % 2
      && PackageArchiveExportSize(kept) == size
      && ArchiveMemberHeader(kept[8..68]) == ArchiveMemberHeader(data[8..68])
      && StripToExport(kept) == Stripped(kept)
  {
    var kept := StripToExport(data).kept;
    var prefix := data[..PREFIX_LEN];
    assert prefix[..8] == data[..8] == kept[..8];
    assert prefix[8..68] == data[8..68] == kept[8..68];
    assert kept[..PREFIX_LEN] == prefix;
    assert kept == data[..|kept|];
    assert kept[PREFIX_LEN..|kept|] == data[PREFIX_LEN..|kept|];
  }

  lemma StripIs(data: Bytes, size: nat)
    requires PREFIX_LEN + size + size % 2 <= |data|
    requires PackageArchiveExportSize(data[..PREFIX_LEN]) == Some(size)
    ensures StripToExport(data) == Stripped(data[..PREFIX_LEN + size + size % 2])
  {
    var n := PREFIX_LEN + size + size % 2;
    assert data[..n] == data[..PREFIX_LEN] + data[PREFIX_LEN..n];
  }

  lemma SameSlices(a: Bytes, b: Bytes, m: nat, n: nat)
    requires m <= n <= |a| && n <= |b| && a[..n] == b[..n]
    ensures a[..m] == b[..m] && a[m..n] == b[m..n]
  {
    assert a[..m] == a[..n][..m] && b[..m] == b[..n][..m];
    assert a[m..n] == a[..n][m..] && b[m..n] == b[..n][m..];
  }

  /** Nothing past the prefix decides anything: two inputs that agree up to the end of the
      padded member strip alike. */
  lemma StripReadsNoFurther(data: Bytes, other: Bytes)
    requires StripToExport(data).Stripped? && StripToExport(data).kept <= other
    ensures StripToExport(other) == StripToExport(data)
  {
    var size := PackageArchiveExportSize(data[..PREFIX_LEN]).value;
    StripIs(data, size);
    SameSlices(data, other, PREFIX_LEN, PREFIX_LEN + size + size % 2);
    StripIs(other, size);
  }

  /******* Archives as the compiler writes them *******/

  function Spaces(n: nat): (s: Bytes)
    ensures |s| == n
  {
    if n == 0 then [] else Spaces(n - 1) + [32]
  }

  function Pad(s: Bytes, width: nat): (p: Bytes)
    ensures |s| <= width ==> |p| == width
  {
    if |s| <= width then s + Spaces(width - |s|) else s
  }

  /** The first member's header: name, 32 bytes of date, owner and mode, size. */
  function Header(middle: Bytes, size: nat): Bytes {
    Pad(PKGDEF, 16) + middle + Pad(Digits(size), 10) + HEADER_END
  }

  /** An archive of one member with this content. */
  function PackageArchive(middle: Bytes, content: Bytes): Bytes {
    MAGIC + Header(middle, |content|) + Padded(content)
  }

  function Padded(content: Bytes): (p: Bytes)
    ensures |p| == |content| + |content| % 2
  {
    content + if |content| % 2 != 0 then [NEWLINE] else []
  }

  lemma {:induction false} TrimPadding(s: Bytes, n: nat)
    requires s != [] && LeadingSpace(s) == 0 && TrailingSpace(s) == 0
    ensures TrimRight(s + Spaces(n)) == s && LeadingSpace(s + Spaces(n)) == 0
  {
    var p := s + Spaces(n);
    if n == 0 {
      assert p == s;
    } else {
      TrimPadding(s, n - 1);
      assert p == s + Spaces(n - 1) + [32];
      TrimRightSpace(s + Spaces(n - 1), 32);
      LeadingSpaceStays(s + Spaces(n - 1), 32);
    }
  }

  lemma TrimPadded(s: Bytes, width: nat)
    requires s != [] && LeadingSpace(s) == 0 && TrailingSpace(s) == 0 && |s| <= width
    ensures TrimSpace(Pad(s, width)) == s
  {
    TrimPadding(s, width - |s|);
  }

  lemma {:induction false} DigitsFit(n: nat, width: nat)
    requires width > 0 && n < Pow10(width)
    ensures |Digits(n)| <= width
  {
    if n >= 10 {
      DigitsFit(n / 10, width - 1);
    }
  }

  lemma DigitsDoNotTrim(n: nat)
    ensures LeadingSpace(Digits(n)) == 0 && TrailingSpace(Digits(n)) == 0 && Digits(n) != []
  {
    DigitsRoundTrip(n);
    PlainEndsDoNotTrim(Digits(n));
  }

  /** A size is read back from its field. */
  lemma SizeRoundTrip(n: nat)
    requires n < 10_000_000_000
    ensures |Pad(Digits(n), 10)| == 10
    ensures ParseInt(TrimSpace(Pad(Digits(n), 10))) == Some(n)
  {
    TenToTheTenth();
    DigitsFit(n, 10);
    DigitsDoNotTrim(n);
    TrimPadded(Digits(n), 10);
    DigitsRoundTrip(n);
  }

  lemma NameTrims()
    ensures TrimSuffix(TrimSpace(Pad(PKGDEF, 16)), SLASH) == PKGDEF
  {
    PlainEndsDoNotTrim(PKGDEF);
    TrimPadded(PKGDEF, 16);
  }

  lemma HeaderRoundTrip(middle: Bytes, size: nat)
    requires |middle| == 32 && size < 10_000_000_000
    ensures |Header(middle, size)| == HEADER_LEN
    ensures ArchiveMemberHeader(Header(middle, size)) == Some(Member(PKGDEF, size))
  {
    SizeRoundTrip(size);
    NameTrims();
    Fields(Pad(PKGDEF, 16), middle, Pad(Digits(size), 10), HEADER_END);
  }

  lemma Fields(name: Bytes, middle: Bytes, field: Bytes, end: Bytes)
    requires |name| == 16 && |middle| == 32 && |field| == 10 && |end| == 2
    ensures
      var h := name + middle + field + end;
      |h| == 60 && h[..16] == name && h[48..58] == field && h[58..60] == end
  {
  }

  lemma MemberStrips(header: Bytes, size: nat, body: Bytes, more: Bytes)
    requires |header| == HEADER_LEN && ArchiveMemberHeader(header) == Some(Member(PKGDEF, size))
    requires |body| == size + size % 2
    ensures StripToExport(MAGIC + header + body + more) == Stripped(MAGIC + header + body)
  {
    var data := MAGIC + header + body + more;
    var prefix := data[..PREFIX_LEN];
    assert prefix[..8] == MAGIC && prefix[8..68] == header;
    StripIs(data, size);
    assert data[..PREFIX_LEN + size + size % 2] == MAGIC + header + body;
  }

  /** Stripping an archive as the compiler writes it, whatever members follow the first,
      leaves exactly the archive of its export data alone. */
  lemma ArchiveStrips(middle: Bytes, content: Bytes, more: Bytes)
    requires |middle| == 32 && |content| < 10_000_000_000
    ensures StripToExport(PackageArchive(middle, content) + more) == Stripped(PackageArchive(middle, content))
  {
    HeaderRoundTrip(middle, |content|);
    MemberStrips(Header(middle, |content|), |content|, Padded(content), more);
  }

  /******* What is an archive, and what is not *******/

  /** The bytes are this text, in ASCII. */
  predicate Spells(s: Bytes, text: string) {
    |s| == |text| && forall i :: 0 <= i < |s| ==> s[i] as int == text[i] as int
  }

  lemma SpelledOut()
    ensures Spells(MAGIC, "!<arch>\n") && Spells(HEADER_END, "`\n") && Spells(PKGDEF, "__.PKGDEF")
  {
    assert "!<arch>\n" == ['!', '<', 'a', 'r', 'c', 'h', '>', '\n'];
    assert "`\n" == ['`', '\n'];
    assert "__.PKGDEF" == ['_', '_', '.', 'P', 'K', 'G', 'D', 'E', 'F'];
  }

  /** The name in a header's first field, without the slash that may end it. */
  function NameOf(field: Bytes): Bytes {
    var name := TrimSpace(field);
    if name != [] && name[|name| - 1] == '/' as Byte then name[..|name| - 1] else name
  }

  /** Whatever is not left alone is a package archive: it has the magic, and its first
      member's header has the right end, the name of the export data, and a size. */
  lemma OnlyPackageArchives(data: Bytes)
    requires !StripToExport(data).NotAnArchive?
    ensures |data| >= 68 && Spells(data[..8], "!<arch>\n") && Spells(data[66..68], "`\n")
    ensures Spells(NameOf(data[8..24]), "__.PKGDEF")
    ensures ParseInt(TrimSpace(data[56..66])).Some? && ParseInt(TrimSpace(data[56..66])).value >= 0
  {
    SpelledOut();
    assert data[..PREFIX_LEN][..8] == data[..8];
    FieldsOf(data);
  }

  /** Where a header's fields are in an archive. */
  lemma FieldsOf(data: Bytes)
    requires |data| >= PREFIX_LEN
    ensures
      var header := data[..PREFIX_LEN][8..68];
      |header| == 60 && header[..16] == data[8..24] && header[48..58] == data[56..66] && header[58..60] == data[66..68]
  {
    var header := data[..PREFIX_LEN][8..68];
    forall i | 0 <= i < 60 ensures header[i] == data[8 + i] {
    }
  }

  /** A header for a member of any name, as an archiver writes it, with a slash or without. */
  function HeaderNamed(name: Bytes, middle: Bytes, size: Bytes): Bytes {
    Pad(name, 16) + middle + Pad(size, 10) + HEADER_END
  }

  /** A name that a header keeps. */
  predicate IsName(name: Bytes) {
    name != [] && |name| <= 15 && LeadingSpace(name) == 0 && TrailingSpace(name) == 0 && name[|name| - 1] != SLASH
  }

  lemma NameWithSlash(name: Bytes)
    requires IsName(name)
    ensures LeadingSpace(name + [SLASH]) == 0 && TrailingSpace(name + [SLASH]) == 0
  {
    LeadingSpaceStays(name, SLASH);
  }

  /** A member is read back under its own name, whether or not a slash ends it. */
  lemma AnyHeaderRoundTrip(name: Bytes, slash: bool, middle: Bytes, size: nat)
    requires IsName(name) && |middle| == 32 && size < 10_000_000_000
    ensures
      var header := HeaderNamed(if slash then name + [SLASH] else name, middle, Digits(size));
      |header| == HEADER_LEN && ArchiveMemberHeader(header) == Some(Member(name, size))
  {
    var written := if slash then name + [SLASH] else name;
    SizeRoundTrip(size);
    NameWithSlash(name);
    TrimPadded(written, 16);
    Fields(Pad(written, 16), middle, Pad(Digits(size), 10), HEADER_END);
  }

  lemma OtherNameIsLeft(header: Bytes, name: Bytes, size: nat, more: Bytes)
    requires |header| == HEADER_LEN && ArchiveMemberHeader(header) == Some(Member(name, size)) && name != PKGDEF
    ensures StripToExport(MAGIC + header + more).NotAnArchive?
  {
    var data := MAGIC + header + more;
    assert data[..PREFIX_LEN][..8] == MAGIC && data[..PREFIX_LEN][8..68] == header;
  }

  /** An archive whose first member has another name is left alone. */
  lemma OtherMembersAreLeft(name: Bytes, slash: bool, middle: Bytes, size: nat, more: Bytes)
    requires IsName(name) && name != PKGDEF && |middle| == 32 && size < 10_000_000_000
    ensures
      var header := HeaderNamed(if slash then name + [SLASH] else name, middle, Digits(size));
      StripToExport(MAGIC + header + more) == NotAnArchive
  {
    AnyHeaderRoundTrip(name, slash, middle, size);
    OtherNameIsLeft(HeaderNamed(if slash then name + [SLASH] else name, middle, Digits(size)), name, size, more);
  }

  /** A sign is read as one. */
  lemma SignedSizes(n: nat)
    requires n < 10_000_000_000
    ensures ParseInt([0x2B] + Digits(n)) == Some(n) && ParseInt([0x2D] + Digits(n)) == Some(-(n as int))
  {
    DigitsRoundTrip(n);
    assert ([0x2B] + Digits(n))[1..] == Digits(n) && ([0x2D] + Digits(n))[1..] == Digits(n);
  }

  /** An archive cut off anywhere: before its content begins it is none, within its content
      it ends early, and past it nothing is lost. */
  lemma CutOffStrips(middle: Bytes, content: Bytes, more: Bytes, n: nat)
    requires |middle| == 32 && |content| < 10_000_000_000 && n <= |PackageArchive(middle, content) + more|
    ensures StripToExport((PackageArchive(middle, content) + more)[..n]) ==
      if n < 68 then NotAnArchive
      else if n < |PackageArchive(middle, content)| then Truncated
      else Stripped(PackageArchive(middle, content))
  {
    var whole := PackageArchive(middle, content);
    HeaderRoundTrip(middle, |content|);
    if n >= |whole| {
      CutPast(whole, more, n);
      ArchiveStrips(middle, content, more[..n - |whole|]);
    } else if n >= 68 {
      CutWithinStrips(middle, content, more, n);
    }
  }

  lemma CutWithinStrips(middle: Bytes, content: Bytes, more: Bytes, n: nat)
    requires |middle| == 32 && |content| < 10_000_000_000 && 68 <= n < |PackageArchive(middle, content)|
    ensures StripToExport((PackageArchive(middle, content) + more)[..n]).Truncated?
  {
    HeaderRoundTrip(middle, |content|);
    CutWithin(MAGIC + Header(middle, |content|), Padded(content), more, n);
    CutInContent(Header(middle, |content|), |content|, Padded(content)[..n - 68]);
  }

  lemma CutPast(s: Bytes, more: Bytes, n: nat)
    requires |s| <= n <= |s + more|
    ensures (s + more)[..n] == s + more[..n - |s|]
  {
  }

  lemma CutWithin(head: Bytes, s: Bytes, more: Bytes, n: nat)
    requires |head| <= n <= |head| + |s|
    ensures (head + s + more)[..n] == head + s[..n - |head|]
  {
  }

  lemma CutInContent(header: Bytes, size: nat, part: Bytes)
    requires |header| == HEADER_LEN && ArchiveMemberHeader(header) == Some(Member(PKGDEF, size))
    requires |part| < size + size % 2
    ensures StripToExport(MAGIC + header + part).Truncated?
  {
    var data := MAGIC + header + part;
    assert data[..PREFIX_LEN][..8] == MAGIC && data[..PREFIX_LEN][8..68] == header;
  }
}
