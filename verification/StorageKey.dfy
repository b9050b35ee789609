/**
 The key layout photo stores share: households/<household>/<class>/<aa>/<sum>.<ext>
 (media/adapter/photo_validation.go), and the class filter a listing applies to it
 (media/adapter/photo_store_s3.go).
 */
module StorageKey {
  import opened Chars
  import opened Seqs

  predicate LowerHex(c: char) {
    '0' <= c <= '9' || 'a' <= c <= 'f'
  }

  predicate ValidSum(sum: string) {
    |sum| == 64 && forall i :: 0 <= i < 64 ==> LowerHex(sum[i])
  }

  predicate ValidExtension(ext: string) {
    ext in ["jpg", "png", "webp"]
  }

  /** A registrable class name. */
  predicate ClassIdentifier(name: string) {
    && name != "" && 'a' <= name[0] <= 'z'
    && forall i :: 0 <= i < |name| ==> 'a' <= name[i] <= 'z' || '0' <= name[i] <= '9' || name[i] == '_'
  }

  /** The canonical text of a household's UUID. */
  predicate UuidText(h: string) {
    |h| == 36 && forall i :: 0 <= i < 36 ==> LowerHex(h[i]) || h[i] == '-'
  }

  /** None stands for the error: an unregistered class, a malformed sum or an unknown extension. */
  function BuildStorageKey(registered: set<string>, household: string, class_: string, sum: string, ext: string): (r: Option<string>)
    requires UuidText(household)
    ensures r.Some? <==> class_ in registered && ValidSum(sum) && ValidExtension(ext)
  {
    if class_ !in registered || !ValidSum(sum) || !ValidExtension(ext) then None
    else Some("households" + "/" + (household + "/" + (class_ + "/" + (sum[..2] + "/" + (sum + "." + ext)))))
  }

  /** A key is built exactly for a registered class, sixty-four hexadecimal digits and one of three types. */
  lemma KeyBuilt(registered: set<string>, household: string, class_: string, sum: string, ext: string)
    requires UuidText(household)
    ensures BuildStorageKey(registered, household, class_, sum, ext).Some? <==>
            && class_ in registered && ext in {"jpg", "png", "webp"}
            && |sum| == 64 && forall i :: 0 <= i < 64 ==> sum[i] in HEX_DIGITS
  {
    forall i | 0 <= i < |sum| ensures LowerHex(sum[i]) <==> sum[i] in HEX_DIGITS {
      HexDigit(sum[i]);
    }
  }

  /** Class names: a small letter, then small letters, digits and underscores. */
  lemma ClassNames(name: string)
    ensures ClassIdentifier(name) <==>
            && name != "" && name[0] in SMALL_LETTERS
            && forall i :: 0 <= i < |name| ==> name[i] in SMALL_LETTERS || name[i] in DIGITS || name[i] == '_'
  {
    forall i | 0 <= i < |name|
      ensures 'a' <= name[i] <= 'z' <==> name[i] in SMALL_LETTERS
      ensures '0' <= name[i] <= '9' <==> name[i] in DIGITS
    {
      SmallLetter(name[i]);
      Digit(name[i]);
    }
  }

  /** Every UUID in its usual form, five dashed groups of hexadecimal digits, is admitted as a household. */
  lemma UuidsAdmitted(h: string)
    requires |h| == 36 && forall i :: 0 <= i < 36 ==> if i in {8, 13, 18, 23} then h[i] == '-' else h[i] in HEX_DIGITS
    ensures UuidText(h)
  {
    forall i | 0 <= i < 36 ensures LowerHex(h[i]) || h[i] == '-' {
      HexDigit(h[i]);
    }
  }

  predicate NoSlash(s: string) {
    '/' !in s
  }

  function FirstSlash(s: string): (r: nat)
    ensures r <= |s| && NoSlash(s[..r]) && (r < |s| ==> s[r] == '/')
  {
    if s == "" || s[0] == '/' then 0 else 1 + FirstSlash(s[1..])
  }

  /** strings.SplitN on "/": at most `n` parts, the last one unsplit. */
  function SplitN(s: string, n: nat): (r: seq<string>)
    requires n > 0
    ensures 0 < |r| <= n
  {
    var i := FirstSlash(s);
    if n == 1 || i == |s| then [s] else [s[..i]] + SplitN(s[i + 1..], n - 1)
  }

  predicate KeyBelongsToClass(key: string, prefix: string) {
    var parts := SplitN(key, 4);
    |parts| >= 3 && parts[0] == "households" && parts[2] == prefix
  }

  lemma FirstSlashIs(head: string, rest: string)
    requires NoSlash(head)
    ensures FirstSlash(head + "/" + rest) == |head|
  {
    var s := head + "/" + rest;
    var i := FirstSlash(s);
    assert s[|head|] == '/' && forall j :: 0 <= j < |head| ==> s[j] == head[j];
    assert forall j :: 0 <= j < i ==> s[..i][j] == s[j] && s[j] != '/';
  }

  lemma SplitHead(head: string, rest: string, n: nat)
    requires NoSlash(head) && n > 1
    ensures SplitN(head + "/" + rest, n) == [head] + SplitN(rest, n - 1)
  {
    FirstSlashIs(head, rest);
    var s := head + "/" + rest;
    assert s[..|head|] == head && s[|head| + 1..] == rest;
  }

  lemma NoSlashes(household: string, class_: string)
    requires UuidText(household) && ClassIdentifier(class_)
    ensures NoSlash(household) && NoSlash(class_)
  {
  }

  /** Four parts: the prefix, the household, the class, and all of the rest. */
  lemma SplitKey(household: string, class_: string, file: string)
    requires NoSlash(household) && NoSlash(class_)
    ensures SplitN("households" + "/" + (household + "/" + (class_ + "/" + file)), 4) == ["households", household, class_, file]
  {
    hide FirstSlash;
    SplitHead(class_, file, 2);
    SplitHead(household, class_ + "/" + file, 3);
    SplitHead("households", household + "/" + (class_ + "/" + file), 4);
  }

  /** The part stays itself when a path is cleaned. */
  predicate PlainPart(part: string) {
    part != "" && part != "." && part != ".." && NoSlash(part)
  }

  /**
   A built key is exactly five plain parts, the household's first and the content's last, so neither
   a class nor an extension can point it anywhere else.
   */
  lemma KeyParts(registered: set<string>, household: string, class_: string, sum: string, ext: string)
    requires UuidText(household) && forall c :: c in registered ==> ClassIdentifier(c)
    requires BuildStorageKey(registered, household, class_, sum, ext).Some?
    ensures var parts := SplitN(BuildStorageKey(registered, household, class_, sum, ext).value, 6);
            && parts == ["households", household, class_, sum[..2], sum + "." + ext]
            && forall i :: 0 <= i < 5 ==> PlainPart(parts[i])
  {
    hide FirstSlash, LowerHex;
    assert ClassIdentifier(class_);
    NoSlashes(household, class_);
    var file := sum + "." + ext;
    HashParts(sum, ext);
    hide SplitN, ClassIdentifier;
    SplitHead(sum[..2], file, 3);
    SplitHead(class_, sum[..2] + "/" + file, 4);
    SplitHead(household, class_ + "/" + (sum[..2] + "/" + file), 5);
    SplitHead("households", household + "/" + (class_ + "/" + (sum[..2] + "/" + file)), 6);
  }

  lemma HashParts(sum: string, ext: string)
    requires ValidSum(sum) && ValidExtension(ext)
    ensures PlainPart(sum[..2]) && PlainPart(sum + "." + ext) && SplitN(sum + "." + ext, 2) == [sum + "." + ext]
  {
    var file := sum + "." + ext;
    assert sum[..2][0] == sum[0] && LowerHex(sum[0]);
    assert forall i :: 0 <= i < |file| ==> file[i] == if i < 64 then sum[i] else if i == 64 then '.' else ext[i - 65];
    assert forall i :: 0 <= i < 64 ==> LowerHex(sum[i]);
    assert NoSlash(ext);
    assert FirstSlash(file) == |file|;
  }

  /** The filter recovers exactly the class a key was built for. */
  lemma ClassRecovered(registered: set<string>, household: string, class_: string, sum: string, ext: string, prefix: string)
    requires UuidText(household) && forall c :: c in registered ==> ClassIdentifier(c)
    requires BuildStorageKey(registered, household, class_, sum, ext).Some?
    ensures KeyBelongsToClass(BuildStorageKey(registered, household, class_, sum, ext).value, prefix) <==> prefix == class_
  {
    hide SplitN, FirstSlash, LowerHex;
    assert ClassIdentifier(class_);
    hide ClassIdentifier;
    NoSlashes(household, class_);
    SplitKey(household, class_, sum[..2] + "/" + (sum + "." + ext));
  }

  /** The filter takes exactly the keys under households/<anything>/<class>, whatever follows. */
  lemma FilterExactly(key: string, prefix: string)
    requires NoSlash(prefix)
    ensures KeyBelongsToClass(key, prefix) <==>
            exists h :: NoSlash(h) && (key == "households/" + h + "/" + prefix || "households/" + h + "/" + prefix + "/" <= key)
  {
    hide FirstSlash, SplitN;
    if KeyBelongsToClass(key, prefix) {
      PartsJoin(key, prefix);
    }
    if h :| NoSlash(h) && (key == "households/" + h + "/" + prefix || "households/" + h + "/" + prefix + "/" <= key) {
      assert "households/" == "households" + "/";
      var tail := key[12 + |h| + |prefix|..];
      assert key == "households" + "/" + (h + "/" + (prefix + tail));
      SplitHead("households", h + "/" + (prefix + tail), 4);
      SplitHead(h, prefix + tail, 3);
      LastParts(prefix, tail);
    }
  }

  lemma LastParts(prefix: string, tail: string)
    requires NoSlash(prefix) && (tail == "" || tail[0] == '/')
    ensures SplitN(prefix + tail, 2)[0] == prefix
  {
    if tail == "" {
      assert prefix + tail == prefix;
      NoFirstSlash(prefix);
    } else {
      assert prefix + tail == prefix + "/" + tail[1..];
      SplitHead(prefix, tail[1..], 2);
    }
  }

  lemma NoFirstSlash(s: string)
    requires NoSlash(s)
    ensures FirstSlash(s) == |s|
  {
  }

  /** A text of several parts is its first one, a slash, and the rest. */
  lemma FirstPart(s: string, n: nat) returns (rest: string)
    requires n > 1 && |SplitN(s, n)| > 1
    ensures NoSlash(SplitN(s, n)[0]) && s == SplitN(s, n)[0] + "/" + rest
    ensures SplitN(s, n)[1..] == SplitN(rest, n - 1)
  {
    var i := FirstSlash(s);
    rest := s[i + 1..];
    assert SplitN(s, n) == [s[..i]] + SplitN(rest, n - 1);
  }

  /** Of at least two parts, the first is the whole or what stands before a slash. */
  lemma HeadPart(s: string)
    ensures var head := SplitN(s, 2)[0]; s == head || head + "/" <= s
  {
    var i := FirstSlash(s);
    if i < |s| {
      assert s[..i + 1] == s[..i] + "/";
    }
  }

  /** The parts of a key, put together again. */
  lemma PartsJoin(key: string, prefix: string)
    requires KeyBelongsToClass(key, prefix) && NoSlash(prefix)
    ensures exists h :: NoSlash(h) && (key == "households/" + h + "/" + prefix || "households/" + h + "/" + prefix + "/" <= key)
  {
    hide FirstSlash, SplitN;
    var one := FirstPart(key, 4);
    var two := FirstPart(one, 3);
    var h := SplitN(one, 3)[0];
    HeadPart(two);
    assert SplitN(key, 4)[2] == SplitN(two, 2)[0];
    assert "households" + "/" == "households/";
    if two == prefix {
      assert key == "households/" + h + "/" + prefix;
    } else {
      assert two == prefix + "/" + two[|prefix| + 1..];
      assert key == "households/" + h + "/" + prefix + "/" + two[|prefix| + 1..];
    }
  }

  /** Different households, classes, contents or types never share a key. */
  lemma KeysAreDistinct(
    registered: set<string>, h: string, c: string, sum: string, ext: string, h': string, c': string, sum': string, ext': string)
    requires UuidText(h) && UuidText(h') && forall c :: c in registered ==> ClassIdentifier(c)
    requires BuildStorageKey(registered, h, c, sum, ext).Some?
    requires BuildStorageKey(registered, h, c, sum, ext) == BuildStorageKey(registered, h', c', sum', ext')
    ensures h == h' && c == c' && sum == sum' && ext == ext'
  {
    ClassRecovered(registered, h, c, sum, ext, c);
    ClassRecovered(registered, h', c', sum', ext', c);
    var key := BuildStorageKey(registered, h, c, sum, ext).value;
    assert h == key[11..47] && h' == key[11..47];
    var at := 48 + |c| + 4;
    assert sum == key[at..at + 64] && sum' == key[at..at + 64];
    assert ext == key[at + 65..] && ext' == key[at + 65..];
  }
}
