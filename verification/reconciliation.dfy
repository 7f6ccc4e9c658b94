/** The vendor-reconciliation mailer: the SMTP encryption chosen from the
    port, the vendor name and the year-month read from a confirmation file's
    name or path, the `key: value` configuration file, the vendor's address
    looked up in it, the grouping of a folder's files by vendor with the
    vendors skipped for want of an address, and the subject and sender of a
    mail. */
module Reconciliation {
  import opened Text

  const ConfirmationKeyword: string := "确认函"
  const DateSeparator: char := '-'

  // ---------------------------------------------------------------------------
  // _auto_detect_encryption

  datatype Encryption = Ssl | StartTls | Plain

  function EncryptionName(e: Encryption): string {
    match e
    case Ssl => "ssl"
    case StartTls => "starttls"
    case Plain => "none"
  }

  /** The encryption for a port: SSL on 465, none on 25, STARTTLS on every
      other port, including a missing or non-positive one. */
  function AutoDetectEncryption(port: int): (r: Encryption)
    ensures r == Ssl <==> port == 465
    ensures r == Plain <==> port == 25
    ensures r == StartTls <==> port != 465 && port != 25
  {
    if port <= 0 then StartTls
    else if port == 25 then Plain
    else if port == 587 then StartTls
    else if port == 465 then Ssl
    else if port == 2525 then StartTls
    else StartTls
  }

  // ---------------------------------------------------------------------------
  // _extract_vendor_name

  /** Stripping twice is stripping once. */
  lemma StripTwice(s: string)
    ensures Strip(Strip(s)) == Strip(s)
  {
    if Strip(s) != [] {
      StripNoSpaceEnds(Strip(s));
    }
  }

  /** The first piece of a split is the text before the first separator. */
  lemma SplitHead(s: string, c: char)
    ensures Split(s, c)[0] == Before(s, c)
  {
  }

  /** The third `-`-separated field of a confirmation file's name, stripped
      and cut before its first `%`. */
  function VendorName(filename: string): (r: Option<string>)
    ensures r.Some? <==> Contains(filename, ConfirmationKeyword) && |Split(filename, DateSeparator)| >= 3
    ensures r.Some? ==> '%' !in r.value && DateSeparator !in r.value
  {
    if !Contains(filename, ConfirmationKeyword) then None
    else
      var parts := Split(filename, DateSeparator);
      if |parts| < 3 then None
      else
        var v := Strip(parts[2]);
        StripKeeps(parts[2], DateSeparator);
        if '%' in v then
          var head := Split(v, '%')[0];
          assert DateSeparator !in head by {
            SplitHead(v, '%');
          }
          StripKeeps(head, '%');
          StripKeeps(head, DateSeparator);
          Some(Strip(head))
        else Some(v)
  }

  /** Whatever the branch, the vendor is the third field, stripped, cut
      before its first `%` and stripped again. */
  lemma VendorNameMeaning(filename: string)
    requires Contains(filename, ConfirmationKeyword) && |Split(filename, DateSeparator)| >= 3
    ensures VendorName(filename) == Some(Strip(Before(Strip(Split(filename, DateSeparator)[2]), '%')))
  {
    var v := Strip(Split(filename, DateSeparator)[2]);
    SplitHead(v, '%');
    if '%' !in v {
      assert Before(v, '%') == v;
      StripTwice(Split(filename, DateSeparator)[2]);
    }
  }

  // ---------------------------------------------------------------------------
  // _extract_year_month

  /** A path component of the form `YYYY-MM` as the code tests it: seven
      characters with a `-` at index 4. */
  predicate MonthDir(part: string) {
    |part| == 7 && part[4] == '-'
  }

  function FirstMonthDir(parts: seq<string>, k: nat): (r: Option<nat>)
    decreases |parts| - k
    ensures r.Some? ==> k <= r.value < |parts| && MonthDir(parts[r.value])
    ensures forall j :: k <= j < |parts| && (r.None? || j < r.value) ==> !MonthDir(parts[j])
  {
    if k >= |parts| then None
    else if MonthDir(parts[k]) then Some(k)
    else FirstMonthDir(parts, k + 1)
  }

  /** A four-digit year and a two-digit month. */
  predicate YearMonthFields(year: string, month: string) {
    |year| == 4 && |month| == 2 && AllDigits(year) && AllDigits(month)
  }

  /** The year-month of a file: the first path component (components are
      separated by `sep`) that looks like one, verbatim; else, for a
      confirmation file, the stripped first two `-` fields of its name when
      they are a year and a month. */
  function YearMonth(path: string, sep: char): (r: Option<string>)
    ensures r.Some? ==> MonthDir(r.value)
  {
    var dirs := Split(path, sep);
    match FirstMonthDir(dirs, 0)
    case Some(k) => Some(dirs[k])
    case None =>
      var name := dirs[|dirs| - 1];
      if !Contains(name, ConfirmationKeyword) then None
      else
        var parts := Split(name, DateSeparator);
        if |parts| >= 3 && YearMonthFields(Strip(parts[0]), Strip(parts[1])) then
          Some(Strip(parts[0]) + "-" + Strip(parts[1]))
        else None
  }

  /** When no path component looks like a year-month, a result is built
      from digits only: four, a `-`, two. */
  lemma YearMonthFromName(path: string, sep: char)
    requires FirstMonthDir(Split(path, sep), 0).None?
    ensures var r := YearMonth(path, sep);
      r.Some? ==> AllDigits(r.value[..4]) && AllDigits(r.value[5..])
    ensures var dirs := Split(path, sep); var parts := Split(dirs[|dirs| - 1], DateSeparator);
      YearMonth(path, sep) ==
        if Contains(dirs[|dirs| - 1], ConfirmationKeyword) && |parts| >= 3
           && YearMonthFields(Strip(parts[0]), Strip(parts[1]))
        then Some(Strip(parts[0]) + "-" + Strip(parts[1]))
        else None
  {
    var dirs := Split(path, sep);
    var name := dirs[|dirs| - 1];
    if Contains(name, ConfirmationKeyword) {
      var parts := Split(name, DateSeparator);
      if |parts| >= 3 && YearMonthFields(Strip(parts[0]), Strip(parts[1])) {
        YearMonthDigits(Strip(parts[0]), Strip(parts[1]));
      }
    }
  }

  lemma YearMonthDigits(y: string, m: string)
    requires YearMonthFields(y, m)
    ensures AllDigits((y + "-" + m)[..4]) && AllDigits((y + "-" + m)[5..])
  {
    assert (y + "-" + m)[..4] == y;
    assert (y + "-" + m)[5..] == m;
  }

  /** A path component that looks like a year-month wins over the name,
      and the first such component is the one returned. */
  lemma YearMonthPrefersPath(path: string, sep: char, k: nat)
    requires k < |Split(path, sep)| && MonthDir(Split(path, sep)[k])
    requires forall j :: 0 <= j < k ==> !MonthDir(Split(path, sep)[j])
    ensures YearMonth(path, sep) == Some(Split(path, sep)[k])
  {
    var dirs := Split(path, sep);
    var f := FirstMonthDir(dirs, 0);
    assert f.Some?;
    assert f.value == k;
  }

  // ---------------------------------------------------------------------------
  // load_config

  /** The configuration as Python's dict keeps it: entries in the order
      their keys were first set. */
  type Entries = seq<(string, string)>

  predicate UniqueKeys(cfg: Entries) {
    forall i, j :: 0 <= i < j < |cfg| ==> cfg[i].0 != cfg[j].0
  }

  /** The position of `key` among the entries, searching from i. */
  function KeyIndex(cfg: Entries, key: string, i: nat): (r: Option<nat>)
    decreases |cfg| - i
    ensures r.Some? ==> i <= r.value < |cfg| && cfg[r.value].0 == key
    ensures forall j :: i <= j < |cfg| && (r.None? || j < r.value) ==> cfg[j].0 != key
  {
    if i >= |cfg| then None
    else if cfg[i].0 == key then Some(i)
    else KeyIndex(cfg, key, i + 1)
  }

  /** `cfg.get(key)` */
  function Get(cfg: Entries, key: string): (r: Option<string>)
  {
    match KeyIndex(cfg, key, 0)
    case Some(i) => Some(cfg[i].1)
    case None => None
  }

  /** `cfg[key] = value`: an existing key keeps its place and takes the new
      value, a new key goes last. */
  function Put(cfg: Entries, key: string, value: string): (r: Entries)
  {
    match KeyIndex(cfg, key, 0)
    case Some(i) => cfg[i := (key, value)]
    case None => cfg + [(key, value)]
  }

  /** After `cfg[key] = value` the key reads back the value, every other key
      reads as before, keys stay unique and keep their order, and only a new
      key adds an entry. */
  lemma PutMeaning(cfg: Entries, key: string, value: string)
    ensures Get(Put(cfg, key, value), key) == Some(value)
    ensures forall k :: k != key ==> Get(Put(cfg, key, value), k) == Get(cfg, k)
    ensures UniqueKeys(cfg) ==> UniqueKeys(Put(cfg, key, value))
    ensures |Put(cfg, key, value)| == |cfg| + (if Get(cfg, key).None? then 1 else 0)
    ensures forall i :: 0 <= i < |cfg| ==> Put(cfg, key, value)[i].0 == cfg[i].0
  {
    var r := Put(cfg, key, value);
    forall k | k != key
      ensures Get(r, k) == Get(cfg, k)
    {
      match KeyIndex(cfg, k, 0)
      case Some(m) =>
        KeyIndexIs(r, k, m);
      case None =>
        assert forall j :: 0 <= j < |r| ==> r[j].0 != k;
    }
    match KeyIndex(cfg, key, 0)
    case Some(m) =>
      KeyIndexIs(r, key, m);
    case None =>
      KeyIndexIs(r, key, |cfg|);
  }

  /** The position of the first entry with the key. */
  lemma KeyIndexIs(cfg: Entries, key: string, m: nat)
    requires m < |cfg| && cfg[m].0 == key
    requires forall j :: 0 <= j < m ==> cfg[j].0 != key
    ensures KeyIndex(cfg, key, 0) == Some(m)
  {
  }

  /** With no entry for the key there is nothing to read. */
  lemma GetAbsent(cfg: Entries, key: string)
    ensures Get(cfg, key).Some? <==> exists j :: 0 <= j < |cfg| && cfg[j].0 == key
  {
  }

  /** One line of the configuration file: blank and `#` lines, lines without
      `:` and lines whose key or value is empty give nothing; otherwise the
      stripped text before the first `:` and after it. */
  function ParseLine(line: string): (r: Option<(string, string)>)
    ensures r.Some? ==> r.value.0 != [] && r.value.1 != [] && ':' !in r.value.0
  {
    var l := Strip(line);
    if l == [] || l[0] == '#' then None
    else
      match FindChar(l, ':', 0)
      case None => None
      case Some(i) =>
        var key, value := Strip(l[..i]), Strip(l[i + 1..]);
        StripKeeps(l[..i], ':');
        if key == [] || value == [] then None else Some((key, value))
  }

  /** A value may itself hold `:`: only the first one separates. */
  lemma ParseLineFirstColon(key: string, value: string)
    requires key != [] && ':' !in key && key[0] != '#' && !IsSpace(key[0]) && !IsSpace(key[|key| - 1])
    requires value != [] && !IsSpace(value[0]) && !IsSpace(value[|value| - 1])
    ensures ParseLine(key + (":" + value)) == Some((key, value))
  {
    var l := key + (":" + value);
    assert Strip(l) == l && l[0] != '#' by {
      assert l[0] == key[0] && l[|l| - 1] == value[|value| - 1];
      StripNoSpaceEnds(l);
    }
    ColonFirst(key, value);
    StripNoSpaceEnds(key);
    StripNoSpaceEnds(value);
    ParseStrippedLine(l, |key|);
  }

  lemma ColonFirst(key: string, value: string)
    requires ':' !in key
    ensures var l := key + (":" + value);
      FindChar(l, ':', 0) == Some(|key|) && l[..|key|] == key && l[|key| + 1..] == value
  {
    ColonAt(key, value);
    FindCharAt(key + (":" + value), ':', |key|);
  }

  lemma ParseStrippedLine(l: string, i: nat)
    requires l != [] && Strip(l) == l && l[0] != '#' && FindChar(l, ':', 0) == Some(i)
    ensures ParseLine(l) == if Strip(l[..i]) == [] || Strip(l[i + 1..]) == [] then None else Some((Strip(l[..i]), Strip(l[i + 1..])))
  {
  }

  lemma ColonAt(key: string, value: string)
    ensures var l := key + (":" + value);
      |l| == |key| + 1 + |value| && l[|key|] == ':' && l[..|key|] == key && l[|key| + 1..] == value
  {
    var l := key + (":" + value);
    assert l[|key|..] == ":" + value;
  }


  /** The entries stored from a sequence of parsed lines, a later value for
      a key replacing an earlier one. */
  function Store(ps: seq<Option<(string, string)>>): (r: Entries)
    ensures UniqueKeys(r)
  {
    if ps == [] then []
    else
      var cfg := Store(ps[..|ps| - 1]);
      match ps[|ps| - 1]
      case None => cfg
      case Some((k, v)) => PutMeaning(cfg, k, v); Put(cfg, k, v)
  }

  function ParseLines(lines: seq<string>): (r: seq<Option<(string, string)>>)
    ensures |r| == |lines| && forall i :: 0 <= i < |lines| ==> r[i] == ParseLine(lines[i])
  {
    seq(|lines|, i requires 0 <= i < |lines| => ParseLine(lines[i]))
  }

  /** The configuration read from the file's lines. */
  function ConfigOf(lines: seq<string>): (r: Entries)
    ensures UniqueKeys(r)
  {
    Store(ParseLines(lines))
  }

  predicate SetsKey(p: Option<(string, string)>, key: string) {
    p.Some? && p.value.0 == key
  }

  /** A key ends with the value of the last line that sets it. */
  lemma {:induction false} LastLineWins(ps: seq<Option<(string, string)>>, i: nat, key: string, value: string)
    requires i < |ps| && ps[i] == Some((key, value))
    requires forall j :: i < j < |ps| ==> !SetsKey(ps[j], key)
    ensures Get(Store(ps), key) == Some(value)
  {
    var n := |ps|;
    var front := ps[..n - 1];
    var cfg := Store(front);
    if i < n - 1 {
      assert forall j :: i < j < |front| ==> front[j] == ps[j];
      assert front[i] == ps[i];
      LastLineWins(front, i, key, value);
      match ps[n - 1]
      case None =>
      case Some((k, v)) =>
        assert !SetsKey(ps[n - 1], key);
        PutMeaning(cfg, k, v);
    } else {
      PutMeaning(cfg, key, value);
    }
  }

  /** A key is present exactly when some line sets it. */
  lemma {:induction false} KeyPresentIff(ps: seq<Option<(string, string)>>, key: string)
    ensures Get(Store(ps), key).Some? <==> exists j :: 0 <= j < |ps| && SetsKey(ps[j], key)
  {
    if ps != [] {
      var n := |ps|;
      var front := ps[..n - 1];
      KeyPresentIff(front, key);
      assert forall j :: 0 <= j < |front| ==> front[j] == ps[j];
      match ps[n - 1]
      case None =>
      case Some((k, v)) =>
        PutMeaning(Store(front), k, v);
    }
  }

  const UserKey: string := "smtp_username"
  const PasswordKey: string := "smtp_password"
  const RequiredKeys: seq<string> := [UserKey, PasswordKey]

  /** The required keys among the first n that the configuration lacks, in
      their listed order. */
  function MissingFrom(cfg: Entries, n: nat): (r: seq<string>)
    requires n <= |RequiredKeys|
    ensures forall k :: k in r <==> k in RequiredKeys[..n] && Get(cfg, k).None?
  {
    if n == 0 then []
    else
      assert RequiredKeys[..n] == RequiredKeys[..n - 1] + [RequiredKeys[n - 1]];
      MissingFrom(cfg, n - 1) + (if Get(cfg, RequiredKeys[n - 1]).None? then [RequiredKeys[n - 1]] else [])
  }

  /** A loaded configuration, or the ValueError naming the missing keys. */
  datatype Loaded = Config(entries: Entries) | Missing(keys: seq<string>)

  function LoadConfigOf(lines: seq<string>): (r: Loaded)
  {
    var cfg := ConfigOf(lines);
    var missing := MissingFrom(cfg, |RequiredKeys|);
    if missing == [] then Config(cfg) else Missing(missing)
  }

  /** A loaded configuration has unique keys and both required keys. */
  lemma LoadedHasKeys(lines: seq<string>)
    requires LoadConfigOf(lines).Config?
    ensures var cfg := LoadConfigOf(lines).entries;
      UniqueKeys(cfg) && Get(cfg, UserKey).Some? && Get(cfg, PasswordKey).Some?
  {
    assert RequiredKeys[..|RequiredKeys|] == RequiredKeys;
    assert UserKey in RequiredKeys && PasswordKey in RequiredKeys;
  }

  /** The file is refused exactly when no line sets the user name or no
      line sets the password. */
  lemma LoadRefusedIff(lines: seq<string>)
    ensures LoadConfigOf(lines).Missing? <==>
      (forall j :: 0 <= j < |lines| ==> !SetsKey(ParseLines(lines)[j], UserKey))
      || (forall j :: 0 <= j < |lines| ==> !SetsKey(ParseLines(lines)[j], PasswordKey))
  {
    var ps := ParseLines(lines);
    KeyPresentIff(ps, UserKey);
    KeyPresentIff(ps, PasswordKey);
    MissingNoneIff(ConfigOf(lines));
  }

  lemma MissingNoneIff(cfg: Entries)
    ensures MissingFrom(cfg, |RequiredKeys|) == [] <==> Get(cfg, UserKey).Some? && Get(cfg, PasswordKey).Some?
  {
    assert MissingFrom(cfg, 1) == (if Get(cfg, UserKey).None? then [UserKey] else []);
  }

  /** The reading loop: each line is parsed and stored; then the required
      keys are checked. */
  method LoadConfig(lines: seq<string>) returns (r: Loaded)
    ensures r == LoadConfigOf(lines)
  {
    var cfg := StoreLines(lines);
    var missing: seq<string> := [];
    for k := 0 to |RequiredKeys|
      invariant missing == MissingFrom(cfg, k)
    {
      if Get(cfg, RequiredKeys[k]).None? {
        missing := missing + [RequiredKeys[k]];
      }
    }
    if missing == [] {
      r := Config(cfg);
    } else {
      r := Missing(missing);
    }
  }

  method StoreLines(lines: seq<string>) returns (cfg: Entries)
    ensures cfg == ConfigOf(lines)
  {
    cfg := [];
    var i := 0;
    while i < |lines|
      invariant 0 <= i <= |lines|
      invariant cfg == Store(ParseLines(lines)[..i])
    {
      assert ParseLines(lines)[..i + 1][..i] == ParseLines(lines)[..i];
      var parsed := ParseLine(lines[i]);
      if parsed.Some? {
        cfg := Put(cfg, parsed.value.0, parsed.value.1);
      }
      i := i + 1;
    }
    assert ParseLines(lines)[..|lines|] == ParseLines(lines);
  }

  // ---------------------------------------------------------------------------
  // _get_vendor_email

  /** Underscores removed, then stripped. */
  function Normalize(s: string): (r: string)
    ensures '_' !in r
  {
    StripKeeps(RemoveChar(s, '_'), '_');
    Strip(RemoveChar(s, '_'))
  }

  /** The normalised keys of the configuration, in its order. */
  function NormalizedKeys(cfg: Entries): (r: seq<string>)
    ensures |r| == |cfg| && forall j :: 0 <= j < |cfg| ==> r[j] == Normalize(cfg[j].0)
  {
    seq(|cfg|, j requires 0 <= j < |cfg| => Normalize(cfg[j].0))
  }

  /** The first position, at or after i, holding `name`. */
  function FirstVendorKey(keys: seq<string>, name: string, i: nat): (r: Option<nat>)
    decreases |keys| - i
    ensures r.Some? ==> i <= r.value < |keys| && keys[r.value] == name
    ensures forall j :: i <= j < |keys| && (r.None? || j < r.value) ==> keys[j] != name
  {
    if i >= |keys| then None
    else if keys[i] == name then Some(i)
    else FirstVendorKey(keys, name, i + 1)
  }

  /** The vendor's address: the value of the first entry, in the
      configuration's order, whose normalised key equals the normalised
      vendor name; `None` for the ValueError saying no address is
      configured. */
  function VendorEmail(cfg: Entries, vendor: string): Option<string> {
    match FirstVendorKey(NormalizedKeys(cfg), Normalize(vendor), 0)
    case Some(i) => Some(cfg[i].1)
    case None => None
  }

  /** The search loop over the configuration's entries. */
  method GetVendorEmail(cfg: Entries, vendor: string) returns (r: Option<string>)
    ensures r == VendorEmail(cfg, vendor)
    ensures r.None? <==> forall j :: 0 <= j < |cfg| ==> Normalize(cfg[j].0) != Normalize(vendor)
  {
    var name := Normalize(vendor);
    ghost var keys := NormalizedKeys(cfg);
    var i := 0;
    while i < |cfg|
      invariant 0 <= i <= |cfg|
      invariant FirstVendorKey(keys, name, i) == FirstVendorKey(keys, name, 0)
    {
      if Normalize(cfg[i].0) == name {
        return Some(cfg[i].1);
      }
      i := i + 1;
    }
    return None;
  }

  lemma {:induction false} RemoveCharTwice(s: string, c: char)
    ensures RemoveChar(RemoveChar(s, c), c) == RemoveChar(s, c)
  {
    if s != [] {
      RemoveCharTwice(s[1..], c);
      var t := RemoveChar(s[1..], c);
      if s[0] == c {
        assert RemoveChar(s, c) == t;
      } else {
        assert RemoveChar(s, c) == [s[0]] + t;
        assert RemoveChar([s[0]] + t, c) == [s[0]] + RemoveChar(t, c) by {
          assert ([s[0]] + t)[1..] == t;
        }
      }
    }
  }

  /** Underscores in the vendor name do not matter to the lookup. */
  lemma UnderscoresIgnored(cfg: Entries, vendor: string)
    ensures VendorEmail(cfg, vendor) == VendorEmail(cfg, RemoveChar(vendor, '_'))
  {
    RemoveCharTwice(vendor, '_');
  }

  // ---------------------------------------------------------------------------
  // process_folder

  /** The files of one vendor, in folder order. */
  datatype Group = Group(vendor: string, files: seq<string>)

  predicate UniqueVendors(gs: seq<Group>) {
    forall i, j :: 0 <= i < j < |gs| ==> gs[i].vendor != gs[j].vendor
  }

  /** The position of the vendor's group, searching from i. */
  function GroupIndex(gs: seq<Group>, vendor: string, i: nat): (r: Option<nat>)
    decreases |gs| - i
    ensures r.Some? ==> i <= r.value < |gs| && gs[r.value].vendor == vendor
    ensures forall j :: i <= j < |gs| && (r.None? || j < r.value) ==> gs[j].vendor != vendor
  {
    if i >= |gs| then None
    else if gs[i].vendor == vendor then Some(i)
    else GroupIndex(gs, vendor, i + 1)
  }

  /** `vendor_files[vendor].append(file)`, opening the group when the vendor
      is new. */
  function AddFile(gs: seq<Group>, vendor: string, file: string): (r: seq<Group>)
  {
    match GroupIndex(gs, vendor, 0)
    case Some(i) => gs[i := Group(vendor, gs[i].files + [file])]
    case None => gs + [Group(vendor, [file])]
  }

  /** Adding a file keeps vendors unique and in order, keeps every file
      already grouped, and puts the new file, and only it, under its
      vendor. */
  lemma AddFileMeaning(gs: seq<Group>, vendor: string, file: string)
    ensures var r := AddFile(gs, vendor, file);
      |r| >= |gs| && (forall i :: 0 <= i < |gs| ==> r[i].vendor == gs[i].vendor)
      && (UniqueVendors(gs) ==> UniqueVendors(r))
      && (exists i :: 0 <= i < |r| && r[i].vendor == vendor && file in r[i].files)
      && (forall i :: 0 <= i < |gs| ==> forall f :: f in gs[i].files ==> f in r[i].files)
      && (forall i, f :: 0 <= i < |r| && f in r[i].files ==>
            (r[i].vendor == vendor && f == file) || (i < |gs| && f in gs[i].files))
  {
    var r := AddFile(gs, vendor, file);
    match GroupIndex(gs, vendor, 0)
    case Some(m) =>
      assert r[m].vendor == vendor && file in r[m].files;
    case None =>
      assert r[|gs|].vendor == vendor && file in r[|gs|].files;
  }

  /** The confirmation files: the names holding the keyword. */
  function ConfirmationFiles(names: seq<string>): (r: seq<string>)
    ensures forall f :: f in r <==> f in names && Contains(f, ConfirmationKeyword)
  {
    if names == [] then []
    else (if Contains(names[0], ConfirmationKeyword) then [names[0]] else []) + ConfirmationFiles(names[1..])
  }

  /** The vendor a file is grouped under: a non-empty extracted name. */
  predicate HasVendor(file: string) {
    VendorName(file).Some? && VendorName(file).value != []
  }

  /** The groups of the files, vendors in the order of their first file. */
  function GroupFiles(files: seq<string>): (r: seq<Group>)
    ensures UniqueVendors(r)
  {
    if files == [] then []
    else
      var gs := GroupFiles(files[..|files| - 1]);
      var f := files[|files| - 1];
      if HasVendor(f) then AddFileMeaning(gs, VendorName(f).value, f); AddFile(gs, VendorName(f).value, f) else gs
  }

  /** Every grouped file is under the vendor its name gives, and every file
      with a vendor is in that vendor's group; files without one are in no
      group. */
  lemma {:induction false} GroupFilesMeaning(files: seq<string>)
    ensures forall i :: 0 <= i < |GroupFiles(files)| ==> forall f :: f in GroupFiles(files)[i].files ==>
      f in files && HasVendor(f) && VendorName(f).value == GroupFiles(files)[i].vendor
    ensures forall f :: f in files && HasVendor(f) ==>
      exists i :: 0 <= i < |GroupFiles(files)| && GroupFiles(files)[i].vendor == VendorName(f).value && f in GroupFiles(files)[i].files
  {
    if files != [] {
      var front := files[..|files| - 1];
      var last := files[|files| - 1];
      GroupFilesMeaning(front);
      var gs := GroupFiles(front);
      var r := GroupFiles(files);
      if HasVendor(last) {
        AddFileMeaning(gs, VendorName(last).value, last);
      }
      assert forall f :: f in files <==> f in front || f == last;
      forall f | f in files && HasVendor(f)
        ensures exists i :: 0 <= i < |r| && r[i].vendor == VendorName(f).value && f in r[i].files
      {
        if f != last || !HasVendor(last) {
          assert f in front;
          var i :| 0 <= i < |gs| && gs[i].vendor == VendorName(f).value && f in gs[i].files;
          assert r[i].vendor == gs[i].vendor && f in r[i].files;
        }
      }
    }
  }

  /** The grouping loop of the folder processing. */
  method GroupByVendor(files: seq<string>) returns (groups: seq<Group>)
    ensures groups == GroupFiles(files)
  {
    groups := [];
    var i := 0;
    while i < |files|
      invariant 0 <= i <= |files|
      invariant groups == GroupFiles(files[..i])
    {
      assert files[..i + 1][..i] == files[..i];
      var vendor := VendorName(files[i]);
      if vendor.Some? && vendor.value != [] {
        groups := AddFile(groups, vendor.value, files[i]);
      }
      i := i + 1;
    }
    assert files[..|files|] == files;
  }

  /** How sending to one vendor ended: sent, a ValueError, or another
      error, each with its message. */
  datatype Outcome = Sent | ValueErr(message: string) | OtherErr(message: string)

  const NoAddressMarker: string := "未找到供应商"

  /** A vendor is skipped exactly when sending raised a ValueError whose
      text mentions the missing vendor. */
  predicate Skips(o: Outcome) {
    o.ValueErr? && Contains(o.message, NoAddressMarker)
  }

  /** The vendors skipped, in processing order. */
  function SkippedOf(gs: seq<Group>, send: string -> Outcome): (r: seq<string>)
    ensures |r| <= |gs|
  {
    if gs == [] then []
    else (if Skips(send(gs[0].vendor)) then [gs[0].vendor] else []) + SkippedOf(gs[1..], send)
  }

  /** The skipped vendors are exactly the grouped vendors whose send failed
      for want of an address. */
  lemma {:induction false} SkippedMeaning(gs: seq<Group>, send: string -> Outcome)
    ensures forall v :: v in SkippedOf(gs, send) <==> exists i :: 0 <= i < |gs| && gs[i].vendor == v && Skips(send(v))
  {
    if gs != [] {
      SkippedMeaning(gs[1..], send);
      assert forall i :: 1 <= i < |gs| ==> gs[i] == gs[1..][i - 1];
    }
  }

  /** Processing one more vendor. */
  lemma SkippedStep(gs: seq<Group>, k: nat, send: string -> Outcome)
    requires k < |gs|
    ensures SkippedOf(gs[k..], send)
      == (if Skips(send(gs[k].vendor)) then [gs[k].vendor] else []) + SkippedOf(gs[k + 1..], send)
  {
    assert gs[k..][1..] == gs[k + 1..];
  }

  /** The counts of the closing summary. */
  datatype Summary = Summary(vendors: nat, files: nat, succeeded: int, skipped: nat)

  /** The mailer's state that outlives one folder: the skipped vendors. */
  class Mailer {
    var skippedVendors: seq<string>

    constructor()
      ensures skippedVendors == []
    {
      skippedVendors := [];
    }

    /** Groups the confirmation files of a folder (given by their names) by
        vendor, sends to each vendor in turn (the outcome of each send is a
        parameter) and records the skipped vendors. The success count is the
        number of vendors less the whole skipped list, which this object
        keeps across folders. */
    method ProcessFolder(names: seq<string>, send: string -> Outcome) returns (groups: seq<Group>, summary: Summary)
      modifies this
      ensures groups == GroupFiles(ConfirmationFiles(names))
      ensures skippedVendors == old(skippedVendors) + SkippedOf(groups, send)
      ensures summary == Summary(|groups|, |ConfirmationFiles(names)|, |groups| - |skippedVendors|, |skippedVendors|)
      ensures summary.succeeded == |groups| - |old(skippedVendors)| - |SkippedOf(groups, send)|
      ensures old(skippedVendors) == [] ==> 0 <= summary.succeeded <= summary.vendors
    {
      var files := ConfirmationFiles(names);
      groups := GroupByVendor(files);
      SendAll(groups, send);
      summary := Summary(|groups|, |files|, |groups| - |skippedVendors|, |skippedVendors|);
    }

    /** The sending loop: each vendor in turn, appending the vendor to the
        skipped list when its send failed for want of an address. */
    method SendAll(groups: seq<Group>, send: string -> Outcome)
      modifies this
      ensures skippedVendors == old(skippedVendors) + SkippedOf(groups, send)
    {
      ghost var before := skippedVendors;
      var k := 0;
      while k < |groups|
        invariant 0 <= k <= |groups|
        invariant skippedVendors + SkippedOf(groups[k..], send) == before + SkippedOf(groups, send)
      {
        var vendor := groups[k].vendor;
        var outcome := send(vendor);
        ghost var rest := SkippedOf(groups[k + 1..], send);
        SkippedStep(groups, k, send);
        if outcome.ValueErr? && Contains(outcome.message, NoAddressMarker) {
          Associate(skippedVendors, [vendor], rest);
          skippedVendors := skippedVendors + [vendor];
        }
        k := k + 1;
      }
      assert SkippedOf(groups[k..], send) == [];
    }
  }

  // ---------------------------------------------------------------------------
  // send_reconciliation_email: subject and sender

  const DefaultSubject: string := "对账确认函"

  /** The subject: the configured one (or the default), prefixed with
      `<year-month>月` when a year-month was found. */
  function Subject(cfg: Entries, yearMonth: Option<string>): (r: string)
  {
    var base := match Get(cfg, "email_subject") case Some(s) => s case None => DefaultSubject;
    match yearMonth
    case Some(ym) => if ym != [] then ym + "月" + base else base
    case None => base
  }

  /** The subject carries a year-month prefix exactly when the file's path
      or name gives one; without one it is the configured subject. */
  lemma SubjectPrefix(cfg: Entries, path: string, sep: char)
    ensures var base := match Get(cfg, "email_subject") case Some(s) => s case None => DefaultSubject;
      var r := Subject(cfg, YearMonth(path, sep));
      (YearMonth(path, sep).Some? ==> r == YearMonth(path, sep).value + "月" + base && |r| == 8 + |base|)
      && (YearMonth(path, sep).None? ==> r == base)
  {
  }

  /** The sender: the stripped `sender_email` when that is not empty, else
      the SMTP user name (which loading guarantees). */
  function Sender(cfg: Entries): (r: string)
    requires Get(cfg, UserKey).Some?
    ensures r == Get(cfg, UserKey).value || (Get(cfg, "sender_email").Some? && r == Strip(Get(cfg, "sender_email").value) && r != [])
    ensures Get(cfg, "sender_email").Some? && Strip(Get(cfg, "sender_email").value) != [] ==>
      r == Strip(Get(cfg, "sender_email").value)
  {
    var configured := match Get(cfg, "sender_email") case Some(s) => Strip(s) case None => "";
    if configured != [] then configured else Get(cfg, UserKey).value
  }

  /** The user name is the sender exactly when `sender_email` is missing or
      blank. */
  lemma SenderFallback(cfg: Entries)
    requires Get(cfg, UserKey).Some?
    requires Get(cfg, "sender_email").None? || AllSpace(Get(cfg, "sender_email").value)
    ensures Sender(cfg) == Get(cfg, UserKey).value
  {
    if Get(cfg, "sender_email").Some? {
      StripEmptyIff(Get(cfg, "sender_email").value);
    }
  }
}
