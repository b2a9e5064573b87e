/** Names of table files and the version descriptors that list them (util/file_center.cc,
    db/version_descriptor.cc). */
module FileNames {
  import opened Bytes
  import opened MemFile

  const SST_NAME_LENGTH := 58

  /* --------------------------------------------------------------------- names */

  function Digit(d: nat): char
    requires d < 10
  {
    "0123456789"[d]
  }

  function Decimal(n: nat): (s: string)
    ensures s != [] && AllDigits(s)
  {
    if n < 10 then [Digit(n)] else Decimal(n / 10) + [Digit(n % 10)]
  }

  function Repeat(c: char, n: nat): string {
    seq(n, _ => c)
  }

  // {:*>5}
  function Padded(n: nat): string {
    Repeat('*', if |Decimal(n)| < 5 then 5 - |Decimal(n)| else 0) + Decimal(n)
  }

  // name_a_sst; the id stands for the text of its uuid.
  function NameASst(level: nat, id: string): string {
    "frzkv#" + Padded(level) + "#" + id + "#.frzkvsst"
  }

  predicate EndsWith(s: string, end: string) {
    |end| <= |s| && s[|s| - |end|..] == end
  }

  predicate IsSstName(name: string) {
    "frzkv#" <= name && EndsWith(name, "#.frzkvsst")
  }

  function Find(s: string, c: char): (n: nat)
    ensures n <= |s| && (forall i | 0 <= i < n :: s[i] != c) && (n < |s| ==> s[n] == c)
  {
    if s == [] || s[0] == c then 0 else 1 + Find(s[1..], c)
  }

  // std::views::split at one character.
  function Split(s: string, c: char): seq<string>
    decreases |s|
  {
    var n := Find(s, c);
    if n == |s| then [s] else [s[..n]] + Split(s[n + 1..], c)
  }

  function FirstNotOf(s: string, c: char): (n: nat)
    ensures n <= |s| && (forall i | 0 <= i < n :: s[i] == c) && (n < |s| ==> s[n] != c)
  {
    if s == [] || s[0] != c then 0 else 1 + FirstNotOf(s[1..], c)
  }

  predicate AllDigits(s: string) {
    forall i | 0 <= i < |s| :: '0' <= s[i] <= '9'
  }

  function DigitsValue(s: string): nat
    requires AllDigits(s)
  {
    if s == [] then 0 else 10 * DigitsValue(s[..|s| - 1]) + (s[|s| - 1] - '0') as nat
  }

  function DigitPrefix(s: string): (n: nat)
    ensures n <= |s| && AllDigits(s[..n]) && (n < |s| ==> !('0' <= s[n] <= '9'))
  {
    if s == [] || !('0' <= s[0] <= '9') then 0 else
      var n := DigitPrefix(s[1..]);
      assert s[..n + 1] == [s[0]] + s[1..][..n];
      n + 1
  }

  // std::stoi on what the names hold: None where it throws.
  function Stoi(s: string): Option<nat> {
    var n := DigitPrefix(s);
    if n == 0 || DigitsValue(s[..n]) > 0x7fff_ffff then None else Some(DigitsValue(s[..n]))
  }

  datatype NameParse = NoSst | Throws | Sst(level: nat, id: string)

  // retrive_level_and_id_from_sst_name
  function Retrieve(name: string): NameParse {
    if !IsSstName(name) then NoSst
    else
      var parts := Split(name, '#');
      if |parts| < 3 || FirstNotOf(parts[1], '*') == |parts[1]| then Throws
      else
        match Stoi(parts[1][FirstNotOf(parts[1], '*')..])
        case None => Throws
        case Some(level) => Sst(level, parts[2])
  }

  lemma DigitIs(d: nat)
    requires d < 10
    ensures Digit(d) >= '0' && (Digit(d) - '0') as nat == d
  {}

  lemma {:induction false} DecimalValue(n: nat)
    ensures DigitsValue(Decimal(n)) == n
  {
    hide Digit;
    DigitIs(n % 10);
    if n < 10 {
      assert [Digit(n)][..0] == [];
    } else {
      DecimalValue(n / 10);
      assert Decimal(n)[..|Decimal(n)| - 1] == Decimal(n / 10);
    }
  }

  lemma StoiDecimal(n: nat)
    requires n <= 0x7fff_ffff
    ensures Stoi(Decimal(n)) == Some(n)
  {
    DecimalValue(n);
    assert Decimal(n)[..|Decimal(n)|] == Decimal(n);
  }

  lemma StarsSkipped(k: nat, s: string)
    requires s != [] && s[0] != '*'
    ensures FirstNotOf(Repeat('*', k) + s, '*') == k && (Repeat('*', k) + s)[k..] == s
  {
    var t := Repeat('*', k) + s;
    assert (forall i | 0 <= i < k :: t[i] == '*') && t[k] == s[0];
  }

  lemma SplitAt(a: string, rest: string, c: char)
    requires c !in a
    ensures Split(a + [c] + rest, c) == [a] + Split(rest, c)
  {
    var s := a + [c] + rest;
    assert (forall i | 0 <= i < |a| :: s[i] == a[i] && a[i] in a) && s[|a|] == c;
    assert s[..|a|] == a && s[|a| + 1..] == rest;
  }

  // Parsing a name gives back its level and id, for every level the type can hold.
  lemma NameRoundTrip(level: nat, id: string)
    requires level <= 0x7fff_ffff && '#' !in id
    ensures Retrieve(NameASst(level, id)) == Sst(level, id)
  {
    hide Split, FirstNotOf, Stoi, Decimal, DigitsValue;
    var name, pad := NameASst(level, id), Padded(level);
    var k := |pad| - |Decimal(level)|;
    assert name[|name| - 10..] == "#.frzkvsst";
    assert "frzkv#" <= name;
    assert name == "frzkv" + ['#'] + (pad + ['#'] + (id + ['#'] + ".frzkvsst"));
    SplitAt("frzkv", pad + ['#'] + (id + ['#'] + ".frzkvsst"), '#');
    PaddingPlain(level);
    SplitAt(pad, id + ['#'] + ".frzkvsst", '#');
    SplitAt(id, ".frzkvsst", '#');
    StarsSkipped(k, Decimal(level));
    StoiDecimal(level);
  }

  // A name without the prefix or the ending is no table's.
  lemma RetrieveRefuses(name: string)
    ensures Retrieve(name).NoSst? <==>
              |name| < 10 || name[..6] != "frzkv#" || name[|name| - 10..] != "#.frzkvsst"
  {
    hide Split, FirstNotOf, Stoi;
    if |name| >= 6 {
      assert "frzkv#" <= name <==> name[..6] == "frzkv#";
    }
  }

  // Names that nobody made: the level is the number behind the stars, whatever follows its digits; without a digit
  // there, or beyond the type of levels, parsing throws.
  lemma RetrieveExact(stars: nat, digits: string, tail: string, id: string)
    requires AllDigits(digits) && '#' !in tail && '#' !in id
    requires tail == "" || (!('0' <= tail[0] <= '9') && (digits == "" ==> tail[0] != '*'))
    ensures var name := "frzkv#" + (Repeat('*', stars) + (digits + tail)) + "#" + id + "#.frzkvsst";
            Retrieve(name) ==
              if digits == "" || DigitsValue(digits) > 0x7fff_ffff then Throws else Sst(DigitsValue(digits), id)
  {
    hide Split, FirstNotOf, DigitsValue, DigitPrefix;
    var text := Repeat('*', stars) + (digits + tail);
    var name := "frzkv#" + text + "#" + id + "#.frzkvsst";
    assert name[|name| - 10..] == "#.frzkvsst" && "frzkv#" <= name;
    assert name == "frzkv" + ['#'] + (text + ['#'] + (id + ['#'] + ".frzkvsst"));
    SplitAt("frzkv", text + ['#'] + (id + ['#'] + ".frzkvsst"), '#');
    NoHash(stars, digits, tail);
    SplitAt(text, id + ['#'] + ".frzkvsst", '#');
    SplitAt(id, ".frzkvsst", '#');
    if digits + tail == "" {
      OnlyStars(stars);
      assert text == Repeat('*', stars);
    } else {
      StarsSkipped(stars, digits + tail);
      DigitsFirst(digits, tail);
      assert (digits + tail)[..|digits|] == digits;
    }
  }

  lemma NoHash(stars: nat, digits: string, tail: string)
    requires AllDigits(digits) && '#' !in tail
    ensures '#' !in Repeat('*', stars) + (digits + tail)
  {}

  lemma {:induction false} OnlyStars(k: nat)
    ensures FirstNotOf(Repeat('*', k), '*') == |Repeat('*', k)|
  {
    if k > 0 {
      assert Repeat('*', k)[1..] == Repeat('*', k - 1);
      OnlyStars(k - 1);
    }
  }

  lemma {:induction false} DigitsFirst(digits: string, tail: string)
    requires AllDigits(digits) && (tail == "" || !('0' <= tail[0] <= '9'))
    ensures DigitPrefix(digits + tail) == |digits|
  {
    if digits != "" {
      assert (digits + tail)[1..] == digits[1..] + tail;
      DigitsFirst(digits[1..], tail);
    } else {
      assert digits + tail == tail;
    }
  }

  lemma PaddingPlain(level: nat)
    ensures '#' !in Padded(level)
  {}

  lemma {:induction false} DecimalLength(n: nat, k: nat)
    requires k >= 1
    ensures |Decimal(n)| <= k <==> n < Tenfold(k)
  {
    assert Tenfold(k) == 10 * Tenfold(k - 1);
    if n >= 10 && k > 1 {
      DecimalLength(n / 10, k - 1);
    }
  }

  function Tenfold(k: nat): (r: nat)
    ensures r >= 1 && (k >= 1 ==> r >= 10)
  {
    if k == 0 then 1 else 10 * Tenfold(k - 1)
  }

  // The name has the fixed length exactly for levels of at most five digits.
  lemma NameLength(level: nat, id: string)
    requires |id| == 36
    ensures |NameASst(level, id)| == SST_NAME_LENGTH <==> level <= 99999
  {
    DecimalLength(level, 5);
    assert Tenfold(5) == 100000;
  }

  /* --------------------------------------------------------------- descriptors */

  class TextFile {
    var content: string
    var cursor: nat

    constructor (text: string)
      ensures content == text && cursor == 0
    {
      content, cursor := text, 0;
    }

    method Append(text: string)
      modifies this`content
      ensures content == old(content) + text
    {
      content := content + text;
    }

    method Read(room: nat) returns (piece: string)
      requires cursor <= |content|
      modifies this`cursor
      ensures piece == Piece(content, old(cursor), room) && cursor == old(cursor) + |piece| <= |content|
    {
      piece := Piece(content, cursor, room);
      cursor := cursor + |piece|;
    }
  }

  function Lines(names: seq<string>): string {
    if names == [] then [] else Lines(names[..|names| - 1]) + names[|names| - 1] + "\n"
  }

  // append_version_descriptor
  method AppendVersionDescriptor(names: seq<string>, file: TextFile)
    modifies file`content
    ensures file.content == old(file.content) + Lines(names)
  {
    for k := 0 to |names|
      invariant file.content == old(file.content) + Lines(names[..k])
    {
      file.Append(names[k]);
      file.Append("\n");
      assert names[..k + 1][..k] == names[..k];
    }
    assert names[..|names|] == names;
  }

  // The whole chunks of a text, each without its last character; a rest shorter than a name is dropped.
  function Chunks(text: string): seq<string>
    decreases |text|
  {
    if |text| < SST_NAME_LENGTH then []
    else [text[..SST_NAME_LENGTH]] + (if |text| == SST_NAME_LENGTH then [] else Chunks(text[SST_NAME_LENGTH + 1..]))
  }

  lemma ChunkStep(rest: string, n: nat)
    requires n == Min(SST_NAME_LENGTH + 1, |rest|)
    ensures Chunks(rest) == (if n < SST_NAME_LENGTH then [] else [rest[..n][..SST_NAME_LENGTH]]) + Chunks(rest[n..])
  {
    if |rest| <= SST_NAME_LENGTH {
      assert rest[n..] == [] && rest[..n] == rest;
    } else {
      assert rest[..n][..SST_NAME_LENGTH] == rest[..SST_NAME_LENGTH];
    }
  }

  lemma NoChunks()
    ensures Chunks("") == []
  {}

  // read_version_descriptor
  method ReadVersionDescriptor(file: TextFile) returns (names: seq<string>)
    requires file.cursor <= |file.content|
    modifies file`cursor
    ensures names == Chunks(old(file.content[file.cursor..])) && file.cursor == |file.content|
  {
    hide Chunks;
    NoChunks();
    names := [];
    var readed: nat := 1;
    ghost var text := file.content[file.cursor..];
    while readed != 0
      invariant file.cursor <= |file.content| && (readed == 0 ==> file.cursor == |file.content|)
      invariant Chunks(text) == names + Chunks(file.content[file.cursor..])
      decreases |file.content| - file.cursor, readed
    {
      ghost var rest := file.content[file.cursor..];
      var buffer := file.Read(SST_NAME_LENGTH + 1);
      readed := |buffer|;
      assert file.content[file.cursor..] == rest[readed..];
      ChunkStep(rest, readed);
      assert buffer == rest[..readed];
      if readed < SST_NAME_LENGTH {
        continue;
      }
      names := names + [buffer[..SST_NAME_LENGTH]];
    }
  }

  lemma {:induction false} LinesFront(names: seq<string>)
    requires names != []
    ensures Lines(names) == names[0] + "\n" + Lines(names[1..])
  {
    if |names| > 1 {
      LinesFront(names[..|names| - 1]);
      assert names[..|names| - 1][1..] == names[1..][..|names| - 2];
    }
  }

  lemma {:induction false} ChunksLength(text: string)
    ensures forall i | 0 <= i < |Chunks(text)| :: |Chunks(text)[i]| == SST_NAME_LENGTH
    decreases |text|
  {
    if |text| > SST_NAME_LENGTH {
      ChunksLength(text[SST_NAME_LENGTH + 1..]);
    }
  }

  // A descriptor reads back as the names that were written exactly when every name has the fixed length.
  lemma {:induction false} DescriptorRoundTrip(names: seq<string>)
    ensures Chunks(Lines(names)) == names <==> forall i | 0 <= i < |names| :: |names[i]| == SST_NAME_LENGTH
  {
    ChunksLength(Lines(names));
    if names != [] && forall i | 0 <= i < |names| :: |names[i]| == SST_NAME_LENGTH {
      var text := Lines(names);
      LinesFront(names);
      DescriptorRoundTrip(names[1..]);
      assert text[..SST_NAME_LENGTH] == names[0];
      assert text[SST_NAME_LENGTH + 1..] == Lines(names[1..]);
      assert names == [names[0]] + names[1..];
    }
  }

  datatype SstFile = SstFile(level: nat, id: string)

  predicate GoodFile(f: SstFile) {
    |f.id| == 36 && '#' !in f.id
  }

  function Names(files: seq<SstFile>): (r: seq<string>)
    ensures |r| == |files|
  {
    seq(|files|, i requires 0 <= i < |files| => NameASst(files[i].level, files[i].id))
  }

  // A version's files survive its descriptor: reading it back and parsing each name gives the levels
  // and ids, as long as no level has more than five digits; with a longer one the names differ.
  lemma VersionSurvives(files: seq<SstFile>)
    requires forall f | f in files :: GoodFile(f)
    ensures Chunks(Lines(Names(files))) == Names(files) <==> forall f | f in files :: f.level <= 99999
    ensures forall i | 0 <= i < |files| && files[i].level <= 0x7fff_ffff ::
              Retrieve(Names(files)[i]) == Sst(files[i].level, files[i].id)
  {
    hide Lines, Chunks, NameASst, Retrieve;
    DescriptorRoundTrip(Names(files));
    forall i | 0 <= i < |files| ensures |Names(files)[i]| == SST_NAME_LENGTH <==> files[i].level <= 99999 {
      assert files[i] in files;
      NameLength(files[i].level, files[i].id);
    }
    forall i | 0 <= i < |files| && files[i].level <= 0x7fff_ffff
      ensures Retrieve(Names(files)[i]) == Sst(files[i].level, files[i].id)
    {
      assert files[i] in files;
      NameRoundTrip(files[i].level, files[i].id);
    }
  }
}
