/** The pure helpers of the 3D-Warehouse search: the file-name slug of a
    model title, the SketchUp versions a model is offered in, the entity list
    of a search answer, the thumbnail a result shows and the page offset. */
module Warehouse {
  import opened Common

  // ---------------------------------------------------------------------
  // Slugs

  predicate SlugChar(c: char) {
    ('a' <= c <= 'z') || ('A' <= c <= 'Z') || ('0' <= c <= '9') || c == '-' || c == '_'
  }

  /** The characters the slug pattern lets through: slug characters and spaces. */
  predicate Allowed(c: char) {
    SlugChar(c) || c == ' '
  }

  /** Deleting every character outside the pattern's class. */
  function KeepAllowed(s: string): (r: string)
    ensures |r| <= |s|
    ensures forall i :: 0 <= i < |r| ==> Allowed(r[i])
    ensures (forall i :: 0 <= i < |s| ==> Allowed(s[i])) ==> r == s
  {
    if s == [] then []
    else KeepAllowed(s[..|s| - 1]) + (if Allowed(s[|s| - 1]) then [s[|s| - 1]] else [])
  }

  /** Stripping the surrounding spaces; the only whitespace left after the
      filter is the space. */
  function StripSpaces(s: string): (r: string)
    ensures |r| <= |s|
    ensures forall i :: 0 <= i < |r| ==> r[i] in s
    ensures (forall i :: 0 <= i < |s| ==> s[i] != ' ') ==> r == s
  {
    if s == [] then []
    else if s[0] == ' ' then StripSpaces(s[1..])
    else if s[|s| - 1] == ' ' then StripSpaces(s[..|s| - 1])
    else s
  }

  function Dashes(s: string): (r: string)
    ensures |r| == |s|
    ensures forall i :: 0 <= i < |s| ==> r[i] == (if s[i] == ' ' then '-' else s[i])
  {
    seq(|s|, i requires 0 <= i < |s| => if s[i] == ' ' then '-' else s[i])
  }

  predicate IsSlug(s: string) {
    forall i :: 0 <= i < |s| ==> SlugChar(s[i])
  }

  /** `name or 'Model'`. */
  function Title(name: Option<string>): (r: string)
    ensures r != []
  {
    if name.None? || name.value == "" then "Model" else name.value
  }

  /** The pattern deletion, the strip and the space-to-dash replacement. */
  function Cleaned(title: string): (r: string)
    ensures IsSlug(r)
  {
    var kept := StripSpaces(KeepAllowed(title));
    assert forall i :: 0 <= i < |kept| ==> Allowed(kept[i]) by {
      forall i | 0 <= i < |kept| ensures Allowed(kept[i]) {
        assert kept[i] in KeepAllowed(title);
      }
    }
    Dashes(kept)
  }

  lemma ModelIsSlug()
    ensures IsSlug("Model") && |"Model"| == 5
  {
    var m := "Model";
    assert m[0] == 'M' && m[1] == 'o' && m[2] == 'd' && m[3] == 'e' && m[4] == 'l';
  }

  /** `slug[:60] if slug else 'Model'`. */
  function Cut(slug: string): (r: string)
    requires IsSlug(slug)
    ensures r != [] && |r| <= 60 && IsSlug(r)
    ensures slug != [] && |slug| <= 60 ==> r == slug
    ensures slug == [] ==> r == "Model"
    ensures slug != [] ==> r <= slug && |r| == (if |slug| > 60 then 60 else |slug|)
  {
    ModelIsSlug();
    if slug == [] then "Model"
    else if |slug| > 60 then slug[..60]
    else slug
  }

  /** `_slugify`: a missing or empty title reads as "Model"; characters
      outside letters, digits, '-', '_' and space are deleted, surrounding
      spaces stripped, inner spaces turned into dashes, and the result cut
      to 60 characters, falling back to "Model" when nothing is left. */
  function Slugify(name: Option<string>): (r: string)
    ensures r != []
    ensures |r| <= 60
    ensures forall i :: 0 <= i < |r| ==> SlugChar(r[i])
  {
    Cut(Cleaned(Title(name)))
  }

  /** The filter works character by character: on a concatenation it is
      the concatenation of the filtered parts. */
  lemma {:induction false} KeepAllowedConcat(a: string, b: string)
    ensures KeepAllowed(a + b) == KeepAllowed(a) + KeepAllowed(b)
    decreases |b|
  {
    if b == [] {
      assert a + b == a;
    } else {
      var init := b[..|b| - 1];
      KeepAllowedConcat(a, init);
      assert (a + b)[..|a + b| - 1] == a + init;
    }
  }

  /** One character is kept exactly when the pattern allows it. */
  lemma KeepAllowedChar(c: char)
    ensures KeepAllowed([c]) == if Allowed(c) then [c] else []
  {
    assert [c][..0] == [];
  }

  /** A missing title is slugged as "Model". */
  lemma SlugifyNone()
    ensures Slugify(None) == "Model"
  {
    CleanTitleKept("Model");
  }

  /** A title with no letter, digit, '-' or '_' leaves nothing after the
      clean-up, so its slug falls back to "Model". */
  lemma NoSlugCharIsModel(title: string)
    requires forall i :: 0 <= i < |title| ==> !SlugChar(title[i])
    ensures Slugify(Some(title)) == "Model"
  {
    var kept := KeepAllowed(title);
    assert forall i :: 0 <= i < |kept| ==> kept[i] == ' ' by {
      forall i | 0 <= i < |kept| ensures kept[i] == ' ' {
        KeptFromSource(title, i);
      }
    }
    StripAllSpaces(kept);
    if title != [] {
      assert Title(Some(title)) == title;
    } else {
      assert Title(Some(title)) == "Model";
      CleanTitleKept("Model");
    }
  }

  /** Every kept character is a character of the input. */
  lemma KeptFromSource(s: string, i: nat)
    requires i < |KeepAllowed(s)|
    ensures KeepAllowed(s)[i] in s
  {
    KeptIn(s);
  }

  lemma {:induction false} KeptIn(s: string)
    ensures forall c :: c in KeepAllowed(s) ==> c in s
    decreases |s|
  {
    if s != [] {
      KeptIn(s[..|s| - 1]);
      assert s == s[..|s| - 1] + [s[|s| - 1]];
    }
  }

  /** A string of spaces strips to nothing. */
  lemma {:induction false} StripAllSpaces(s: string)
    requires forall i :: 0 <= i < |s| ==> s[i] == ' '
    ensures StripSpaces(s) == []
    decreases |s|
  {
    if s != [] {
      StripAllSpaces(s[1..]);
    }
  }

  /** A title with punctuation and a space: the '!' is deleted, the space
      becomes a dash, and the letters are kept. */
  lemma SlugExample()
    ensures Slugify(Some("My Chair!")) == "My-Chair"
  {
    ExampleKept();
    ExampleDashed();
    assert Title(Some("My Chair!")) == "My Chair!";
    assert |"My-Chair"| == 8;
  }

  lemma ExampleKept()
    ensures KeepAllowed("My Chair!") == "My Chair"
  {
    assert "My Chair!" == "My Chair" + "!";
    KeepAllowedConcat("My Chair", "!");
    KeepAllowedChar('!');
    ExampleAllowed();
  }

  lemma ExampleAllowed()
    ensures KeepAllowed("My Chair") == "My Chair"
  {
    var t := "My Chair";
    assert t[0] == 'M' && t[1] == 'y' && t[2] == ' ' && t[3] == 'C';
    assert t[4] == 'h' && t[5] == 'a' && t[6] == 'i' && t[7] == 'r';
    assert IsAllowed(t);
  }

  lemma ExampleDashed()
    ensures Dashes(StripSpaces("My Chair")) == "My-Chair"
  {
    var t := "My Chair";
    assert t[0] == 'M' && t[7] == 'r';
    assert StripSpaces(t) == t;
    var d := Dashes(t);
    var m := "My-Chair";
    assert |d| == |m|;
    forall i | 0 <= i < 8 ensures d[i] == m[i] {
    }
  }

  predicate IsAllowed(s: string) {
    forall i :: 0 <= i < |s| ==> Allowed(s[i])
  }

  /** A title made of slug characters and at most 60 long is kept as it is. */
  lemma CleanTitleKept(title: string)
    requires title != [] && |title| <= 60
    requires IsSlug(title)
    ensures Slugify(Some(title)) == title
  {
    assert Title(Some(title)) == title;
    assert KeepAllowed(title) == title;
    assert StripSpaces(title) == title;
    assert Dashes(title) == title;
  }

  /** A slug is its own slug. */
  lemma SlugifyIdempotent(name: Option<string>)
    ensures Slugify(Some(Slugify(name))) == Slugify(name)
  {
    CleanTitleKept(Slugify(name));
  }

  // ---------------------------------------------------------------------
  // Versions

  predicate Digit(c: char) {
    '0' <= c <= '9'
  }

  function DigitValue(c: char): nat
    requires Digit(c)
  {
    (c as int - '0' as int) as nat
  }

  /** The version named by a binary key: `s` followed by one or two
      digits, read as a decimal number. */
  function VersionOf(key: string): (r: Option<nat>)
    ensures r.Some? ==> r.value < 100
    ensures r.Some? <==> (|key| == 2 || |key| == 3) && key[0] == 's' && forall i :: 1 <= i < |key| ==> Digit(key[i])
  {
    if |key| == 2 && key[0] == 's' && Digit(key[1]) then Some(DigitValue(key[1]))
    else if |key| == 3 && key[0] == 's' && Digit(key[1]) && Digit(key[2]) then
      Some(10 * DigitValue(key[1]) + DigitValue(key[2]))
    else None
  }

  /** The versions of `keys`, in key order. */
  function Versions(keys: seq<string>): seq<nat> {
    if keys == [] then []
    else
      var v := VersionOf(keys[|keys| - 1]);
      Versions(keys[..|keys| - 1]) + (if v.Some? then [v.value] else [])
  }

  predicate Descending(s: seq<nat>) {
    forall i, j :: 0 <= i < j < |s| ==> s[i] >= s[j]
  }

  /** Placing `x` into a descending sequence. */
  function InsertDesc(s: seq<nat>, x: nat): (r: seq<nat>)
    requires Descending(s)
    ensures Descending(r)
    ensures multiset(r) == multiset(s) + multiset{x}
    ensures forall y :: y in r ==> y in s || y == x
  {
    if s == [] then [x]
    else if s[0] <= x then [x] + s
    else
      assert s == [s[0]] + s[1..];
      var rest := InsertDesc(s[1..], x);
      HeadBounds(s);
      ConsDescending(s[0], rest);
      [s[0]] + rest
  }

  lemma HeadBounds(s: seq<nat>)
    requires Descending(s) && s != []
    ensures forall y :: y in s[1..] ==> y <= s[0]
  {
    forall y | y in s[1..] ensures y <= s[0] {
      var j :| 0 <= j < |s[1..]| && s[1..][j] == y;
      assert s[j + 1] == y;
    }
  }

  lemma ConsDescending(h: nat, rest: seq<nat>)
    requires Descending(rest)
    requires forall y :: y in rest ==> y <= h
    ensures Descending([h] + rest)
  {
    forall i, j | 0 <= i < j < |[h] + rest| ensures ([h] + rest)[i] >= ([h] + rest)[j] {
      if i > 0 {
        assert ([h] + rest)[i] == rest[i - 1];
      }
      assert ([h] + rest)[j] == rest[j - 1] && rest[j - 1] in rest;
    }
  }

  /** `sort(reverse=True)`. */
  function SortDesc(s: seq<nat>): (r: seq<nat>)
    ensures Descending(r)
    ensures multiset(r) == multiset(s)
  {
    if s == [] then []
    else
      assert s == s[..|s| - 1] + [s[|s| - 1]];
      InsertDesc(SortDesc(s[..|s| - 1]), s[|s| - 1])
  }

  /** `_extract_latest_skp_versions` over the keys of the `binaries`
      record: the versions named by keys of the form `s<digits>`, newest
      first. */
  method ExtractVersions(keys: seq<string>) returns (versions: seq<nat>)
    ensures Descending(versions)
    ensures multiset(versions) == multiset(Versions(keys))
  {
    versions := [];
    var i := 0;
    while i < |keys|
      invariant i <= |keys|
      invariant versions == Versions(keys[..i])
    {
      assert keys[..i + 1][..i] == keys[..i];
      var v := VersionOf(keys[i]);
      if v.Some? {
        versions := versions + [v.value];
      }
      i := i + 1;
    }
    TakeAll(keys);
    versions := SortDesc(versions);
  }

  /** A version is listed exactly when some key names it. */
  lemma {:induction false} VersionsIff(keys: seq<string>, v: nat)
    ensures v in Versions(keys) <==> exists i :: 0 <= i < |keys| && VersionOf(keys[i]) == Some(v)
    decreases |keys|
  {
    if keys != [] {
      var init := keys[..|keys| - 1];
      VersionsIff(init, v);
      if exists i :: 0 <= i < |keys| && VersionOf(keys[i]) == Some(v) {
        var i :| 0 <= i < |keys| && VersionOf(keys[i]) == Some(v);
        if i < |init| {
          assert VersionOf(init[i]) == Some(v);
        }
      }
      if exists i :: 0 <= i < |init| && VersionOf(init[i]) == Some(v) {
        var i :| 0 <= i < |init| && VersionOf(init[i]) == Some(v);
        assert VersionOf(keys[i]) == Some(v);
      }
    }
  }

  // ---------------------------------------------------------------------
  // Entity lists

  /** A decoded JSON value. */
  datatype Json =
    | JNull
    | JBool(b: bool)
    | JNumber(n: int)
    | JString(s: string)
    | JArray(items: seq<Json>)
    | JObject(fields: map<string, Json>)

  /** The keys a search answer may hold its entities under, in the order
      they are tried. */
  const EntityKeys: seq<string> := ["entries", "entities", "items", "results"]

  /** A non-empty list under `k`. */
  predicate HoldsList(fields: map<string, Json>, k: string) {
    k in fields && fields[k].JArray? && fields[k].items != []
  }

  /** The list under the first of `keys` that holds a non-empty one. */
  function FirstList(fields: map<string, Json>, keys: seq<string>): Option<seq<Json>> {
    if keys == [] then None
    else if HoldsList(fields, keys[0]) then Some(fields[keys[0]].items)
    else FirstList(fields, keys[1..])
  }

  /** The entities of a search answer: the list under the first entity key
      that holds a non-empty one, the answer itself when it is a list, and
      nothing otherwise. */
  function EntityList(data: Json): seq<Json> {
    if data.JObject? && FirstList(data.fields, EntityKeys).Some? then FirstList(data.fields, EntityKeys).value
    else if data.JArray? then data.items
    else []
  }

  /** `_parse_entities`. */
  method ParseEntities(data: Json) returns (r: seq<Json>)
    ensures r == EntityList(data)
  {
    if data.JObject? {
      var i := 0;
      while i < |EntityKeys|
        invariant i <= |EntityKeys|
        invariant FirstList(data.fields, EntityKeys) == FirstList(data.fields, EntityKeys[i..])
      {
        var k := EntityKeys[i];
        if k in data.fields && data.fields[k].JArray? && data.fields[k].items != [] {
          return data.fields[k].items;
        }
        assert EntityKeys[i..][1..] == EntityKeys[i + 1..];
        i := i + 1;
      }
    }
    if data.JArray? {
      return data.items;
    }
    return [];
  }

  /** A found list is the one under the earliest key holding a non-empty
      list; finding none means no key holds one. */
  lemma {:induction false} FirstListIs(fields: map<string, Json>, keys: seq<string>)
    ensures FirstList(fields, keys).None? <==> forall i :: 0 <= i < |keys| ==> !HoldsList(fields, keys[i])
    ensures FirstList(fields, keys).Some? ==>
              exists i :: 0 <= i < |keys| && HoldsList(fields, keys[i])
                && FirstList(fields, keys).value == fields[keys[i]].items
                && forall j :: 0 <= j < i ==> !HoldsList(fields, keys[j])
    decreases |keys|
  {
    if keys != [] && !HoldsList(fields, keys[0]) {
      FirstListIs(fields, keys[1..]);
      if FirstList(fields, keys).Some? {
        var i :| 0 <= i < |keys[1..]| && HoldsList(fields, keys[1..][i])
                && FirstList(fields, keys[1..]).value == fields[keys[1..][i]].items
                && forall j :: 0 <= j < i ==> !HoldsList(fields, keys[1..][j]);
        assert forall j :: 0 <= j < i + 1 ==> !HoldsList(fields, keys[j]) by {
          forall j | 0 <= j < i + 1 ensures !HoldsList(fields, keys[j]) {
            if j > 0 {
              assert keys[j] == keys[1..][j - 1];
            }
          }
        }
        assert keys[i + 1] == keys[1..][i];
      } else {
        forall i | 0 <= i < |keys| ensures !HoldsList(fields, keys[i]) {
          if i > 0 {
            assert keys[i] == keys[1..][i - 1];
          }
        }
      }
    }
  }

  /** An answer yields no entity exactly when it is neither a non-empty
      list nor a record holding a non-empty list under an entity key. */
  lemma EntityListEmpty(data: Json)
    ensures EntityList(data) == [] <==>
              && !(data.JArray? && data.items != [])
              && !(data.JObject? && exists i :: 0 <= i < |EntityKeys| && HoldsList(data.fields, EntityKeys[i]))
  {
    if data.JObject? {
      FirstListIs(data.fields, EntityKeys);
    }
  }

  // ---------------------------------------------------------------------
  // Thumbnails

  /** A binary entry of a search result, when it is a record: the URL
      fields ("" for missing or empty), its original file name and its
      extension. */
  datatype Binary = Binary(url: string, contentUrl: string, originalFileName: string, ext: string)

  /** The `binaries` record of a result, in its key order; `None` stands for
      an entry that is not a record. */
  type Binaries = seq<(string, Option<Binary>)>

  /** `binaries.get(key)`, counting only entries that are records. */
  function Lookup(bs: Binaries, key: string): Option<Binary> {
    if bs == [] then None
    else if bs[0].0 == key then bs[0].1
    else Lookup(bs[1..], key)
  }

  /** `entry.get('url') or entry.get('contentUrl')`. */
  function UrlOf(b: Binary): string {
    if b.url != "" then b.url else b.contentUrl
  }

  predicate Usable(e: Option<Binary>) {
    e.Some? && UrlOf(e.value) != ""
  }

  const PrimaryOrder: seq<string> := ["bot_lt_wp", "bot_lt", "bot_st_wp", "bot_st", "bot_tt_wp", "bot_tt"]
  const AoOrder: seq<string> :=
    ["bot_lt_wp_ao", "bot_lt_ao", "bot_st_wp_ao", "bot_st_ao", "bot_tt_wp_ao", "bot_tt_ao"]

  function LowerChar(c: char): char {
    if 'A' <= c <= 'Z' then (c as int - 'A' as int + 'a' as int) as char else c
  }

  function Lower(s: string): (r: string)
    ensures |r| == |s|
  {
    seq(|s|, i requires 0 <= i < |s| => LowerChar(s[i]))
  }

  predicate ImageExt(ext: string) {
    Lower(ext) in ["jpg", "jpeg", "png", "webp"]
  }

  predicate UsableImage(e: Option<Binary>) {
    Usable(e) && ImageExt(e.value.ext)
  }

  /** The (URL, file name) of the first of `keys` whose entry is usable. */
  function FromKeys(bs: Binaries, keys: seq<string>): Option<(string, string)> {
    if keys == [] then None
    else if Usable(Lookup(bs, keys[0])) then
      var b := Lookup(bs, keys[0]).value;
      Some((UrlOf(b), b.originalFileName))
    else FromKeys(bs, keys[1..])
  }

  /** The (URL, file name) of the first entry, in record order, that is a
      usable image. */
  function FromAny(bs: Binaries): Option<(string, string)> {
    if bs == [] then None
    else if UsableImage(bs[0].1) then Some((UrlOf(bs[0].1.value), bs[0].1.value.originalFileName))
    else FromAny(bs[1..])
  }

  /** The thumbnail choice: the preferred sizes first, the ambient-occlusion
      renders next, then any image, else ("", ""). */
  function Thumbnail(bs: Binaries): (string, string) {
    var preferred := FromKeys(bs, PrimaryOrder + AoOrder);
    if preferred.Some? then preferred.value
    else
      var any := FromAny(bs);
      if any.Some? then any.value else ("", "")
  }

  /** `_pick_thumbnail_binary`. */
  method PickThumbnail(bs: Binaries) returns (url: string, fileName: string)
    ensures (url, fileName) == Thumbnail(bs)
  {
    var order := PrimaryOrder + AoOrder;
    var i := 0;
    while i < |order|
      invariant i <= |order|
      invariant FromKeys(bs, order) == FromKeys(bs, order[i..])
    {
      var entry := Lookup(bs, order[i]);
      if entry.Some? {
        var u := UrlOf(entry.value);
        if u != "" {
          return u, entry.value.originalFileName;
        }
      }
      assert order[i..][1..] == order[i + 1..];
      i := i + 1;
    }
    var j := 0;
    while j < |bs|
      invariant j <= |bs|
      invariant FromAny(bs) == FromAny(bs[j..])
    {
      var entry := bs[j].1;
      if entry.Some? && ImageExt(entry.value.ext) {
        var u := UrlOf(entry.value);
        if u != "" {
          return u, entry.value.originalFileName;
        }
      }
      assert bs[j..][1..] == bs[j + 1..];
      j := j + 1;
    }
    return "", "";
  }

  /** A preferred key is taken only when every key before it in the
      preference order has no usable entry; a miss means none has. */
  lemma {:induction false} FromKeysFirst(bs: Binaries, keys: seq<string>)
    ensures FromKeys(bs, keys).None? <==> forall i :: 0 <= i < |keys| ==> !Usable(Lookup(bs, keys[i]))
    ensures FromKeys(bs, keys).Some? ==>
              exists i :: 0 <= i < |keys| && Usable(Lookup(bs, keys[i]))
                && FromKeys(bs, keys).value.0 == UrlOf(Lookup(bs, keys[i]).value)
                && forall j :: 0 <= j < i ==> !Usable(Lookup(bs, keys[j]))
    decreases |keys|
  {
    if keys != [] && !Usable(Lookup(bs, keys[0])) {
      FromKeysFirst(bs, keys[1..]);
      if FromKeys(bs, keys).Some? {
        var i :| 0 <= i < |keys[1..]| && Usable(Lookup(bs, keys[1..][i]))
                && FromKeys(bs, keys[1..]).value.0 == UrlOf(Lookup(bs, keys[1..][i]).value)
                && forall j :: 0 <= j < i ==> !Usable(Lookup(bs, keys[1..][j]));
        assert forall j :: 0 <= j < i + 1 ==> !Usable(Lookup(bs, keys[j])) by {
          forall j | 0 <= j < i + 1 ensures !Usable(Lookup(bs, keys[j])) {
            if j > 0 {
              assert keys[j] == keys[1..][j - 1];
            }
          }
        }
        assert keys[i + 1] == keys[1..][i];
      } else {
        forall i | 0 <= i < |keys| ensures !Usable(Lookup(bs, keys[i])) {
          if i > 0 {
            assert keys[i] == keys[1..][i - 1];
          }
        }
      }
    }
  }

  /** The fallback finds an entry exactly when some entry is a usable image. */
  lemma {:induction false} FromAnyIff(bs: Binaries)
    ensures FromAny(bs).None? <==> forall i :: 0 <= i < |bs| ==> !UsableImage(bs[i].1)
    ensures FromAny(bs).Some? ==> FromAny(bs).value.0 != ""
    decreases |bs|
  {
    if bs != [] && !UsableImage(bs[0].1) {
      FromAnyIff(bs[1..]);
      if FromAny(bs).None? {
        forall i | 0 <= i < |bs| ensures !UsableImage(bs[i].1) {
          if i > 0 {
            assert bs[i] == bs[1..][i - 1];
          }
        }
      } else {
        var i :| 0 <= i < |bs[1..]| && UsableImage(bs[1..][i].1);
        assert bs[i + 1] == bs[1..][i];
      }
    }
  }

  /** The choice comes back empty exactly when no preferred key has a
      usable entry and no entry is a usable image; otherwise its URL is
      not empty. */
  lemma ThumbnailEmpty(bs: Binaries)
    ensures Thumbnail(bs).0 == "" <==>
              && (forall i :: 0 <= i < |PrimaryOrder + AoOrder| ==> !Usable(Lookup(bs, (PrimaryOrder + AoOrder)[i])))
              && (forall i :: 0 <= i < |bs| ==> !UsableImage(bs[i].1))
    ensures Thumbnail(bs).0 == "" ==> Thumbnail(bs) == ("", "")
  {
    FromKeysFirst(bs, PrimaryOrder + AoOrder);
    FromAnyIff(bs);
  }

  // ---------------------------------------------------------------------
  // Paging

  /** The result offset of a search: reset to 0 for a new query, then moved
      by `delta` pages of `maxResults`, never below 0. */
  function PageOffset(query: string, lastQuery: string, offset: int, delta: int, maxResults: int): (r: int)
    ensures delta != 0 ==> r >= 0
    ensures offset >= 0 ==> r >= 0
    ensures delta == 0 ==> r == if query != lastQuery then 0 else offset
  {
    var start := if query != lastQuery then 0 else offset;
    if delta != 0 then (if start + delta * maxResults < 0 then 0 else start + delta * maxResults)
    else start
  }

  /** Paging forward and back again returns to the same offset, unless the
      first move was clamped at 0. */
  lemma PageRoundTrip(query: string, offset: int, delta: int, maxResults: int)
    requires offset >= 0 && delta != 0
    requires offset + delta * maxResults >= 0
    ensures PageOffset(query, query, PageOffset(query, query, offset, delta, maxResults), -delta, maxResults) == offset
  {
    assert (-delta) * maxResults == -(delta * maxResults);
  }
}
