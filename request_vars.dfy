/**
 * Request variable lookup on an incoming request: `getGet`, `getPost`,
 * `getServer`, `getEnv` and `getCookie` read the matching superglobal
 * (`$_GET`, `$_POST`, `$_SERVER`, `$_ENV`, `$_COOKIE`) through one fetch
 * that takes no key (the whole array), one key (its value, or null) or a
 * list of keys (the sub-array of those keys), and applies an optional
 * filter to every value it returns. `getPostGet` and `getGetPost` look in
 * two of the arrays in a fixed order.
 */
module RequestVars {
  import opened UrlEncoding

  /** The superglobal arrays a request reads, as they stand when it reads them. */
  datatype Superglobals = Superglobals(
    get: map<string, string>,
    post: map<string, string>,
    server: map<string, string>,
    env: map<string, string>,
    cookie: map<string, string>)

  /** Which superglobal a lookup reads. */
  datatype Global = Get | Post | Server | Env | Cookie

  /** The filter a lookup applies: none, or `FILTER_SANITIZE_ENCODED`. */
  datatype Filter = Unfiltered | SanitizeEncoded

  /** The index argument: null, one key, or an array of keys. */
  datatype Selector = Everything | Key(name: string) | KeyList(names: seq<string>)

  /** What a lookup returns: null, one value, or an array of values. */
  datatype Fetched = Null | Scalar(value: string) | Array(values: map<string, string>)

  function Table(g: Superglobals, which: Global): map<string, string>
  {
    match which
    case Get => g.get
    case Post => g.post
    case Server => g.server
    case Env => g.env
    case Cookie => g.cookie
  }

  /** The same superglobals with one array replaced. */
  function WithTable(g: Superglobals, which: Global, m: map<string, string>): Superglobals
  {
    match which
    case Get => g.(get := m)
    case Post => g.(post := m)
    case Server => g.(server := m)
    case Env => g.(env := m)
    case Cookie => g.(cookie := m)
  }

  /** `filter_var($value, $filter)` on one value. */
  function ApplyFilter(f: Filter, v: string): string
  {
    match f
    case Unfiltered => v
    case SanitizeEncoded => Encode(v)
  }

  /** The filter applied to every value of an array. */
  function FilterValues(m: map<string, string>, f: Filter): map<string, string>
  {
    map k | k in m :: ApplyFilter(f, m[k])
  }

  /**
   * The entries of `m` whose keys are listed in `names`: a listed key that
   * the array does not hold is left out.
   */
  function Select(m: map<string, string>, names: seq<string>): (r: map<string, string>)
    ensures forall k :: k in r <==> k in m && k in names
    ensures forall k | k in r :: r[k] == m[k]
    decreases |names|
  {
    if names == [] then map[]
    else
      var rest := Select(m, names[1..]);
      if names[0] in m then rest[names[0] := m[names[0]]] else rest
  }

  /** The shared fetch behind every lookup. */
  function FetchGlobal(g: Superglobals, which: Global, sel: Selector, f: Filter): (r: Fetched)
    ensures sel.Everything? ==> r.Array? && r.values.Keys == Table(g, which).Keys
    ensures sel.Key? ==> (r.Null? <==> sel.name !in Table(g, which))
    ensures sel.KeyList? ==> r.Array? && forall k :: k in r.values <==> k in Table(g, which) && k in sel.names
  {
    var m := Table(g, which);
    match sel
    case Everything => Array(FilterValues(m, f))
    case Key(name) => if name in m then Scalar(ApplyFilter(f, m[name])) else Null
    case KeyList(names) => Array(FilterValues(Select(m, names), f))
  }

  function GetGet(g: Superglobals, sel: Selector, f: Filter): Fetched
  {
    FetchGlobal(g, Get, sel, f)
  }

  function GetPost(g: Superglobals, sel: Selector, f: Filter): Fetched
  {
    FetchGlobal(g, Post, sel, f)
  }

  function GetServer(g: Superglobals, sel: Selector, f: Filter): Fetched
  {
    FetchGlobal(g, Server, sel, f)
  }

  function GetEnv(g: Superglobals, sel: Selector, f: Filter): Fetched
  {
    FetchGlobal(g, Env, sel, f)
  }

  function GetCookie(g: Superglobals, sel: Selector, f: Filter): Fetched
  {
    FetchGlobal(g, Cookie, sel, f)
  }

  /** `getPostGet`: the POST value when POST holds the key, the GET lookup otherwise. */
  function GetPostGet(g: Superglobals, name: string, f: Filter): Fetched
  {
    if name in g.post then GetPost(g, Key(name), f) else GetGet(g, Key(name), f)
  }

  /** `getGetPost`: the GET value when GET holds the key, the POST lookup otherwise. */
  function GetGetPost(g: Superglobals, name: string, f: Filter): Fetched
  {
    if name in g.get then GetGet(g, Key(name), f) else GetPost(g, Key(name), f)
  }

  /** The filter applied to every value a lookup returned. */
  function MapFetched(r: Fetched, f: Filter): Fetched
  {
    match r
    case Null => Null
    case Scalar(v) => Scalar(ApplyFilter(f, v))
    case Array(m) => Array(FilterValues(m, f))
  }

  /** `rawurldecode` applied to every value a lookup returned. */
  function DecodeFetched(r: Fetched): Fetched
  {
    match r
    case Null => Null
    case Scalar(v) => Scalar(Decode(v))
    case Array(m) => Array(map k | k in m :: Decode(m[k]))
  }

  /** Every value of every array is a PHP (byte) string. */
  predicate AllOctets(m: map<string, string>)
  {
    forall k | k in m :: IsOctets(m[k])
  }

  // ---------------------------------------------------------------------
  // Single-key lookups
  // ---------------------------------------------------------------------

  /** A GET lookup gives the stored value for a present key and null for an absent one. */
  lemma GetLookup(g: Superglobals, name: string)
    ensures GetGet(g, Key(name), Unfiltered) == (if name in g.get then Scalar(g.get[name]) else Null)
  {
  }

  /** A POST lookup gives the stored value for a present key and null for an absent one. */
  lemma PostLookup(g: Superglobals, name: string)
    ensures GetPost(g, Key(name), Unfiltered) == (if name in g.post then Scalar(g.post[name]) else Null)
  {
  }

  /** SERVER, ENV and COOKIE lookups give the stored value, or null when the key is missing. */
  lemma ServerEnvCookieLookup(g: Superglobals, name: string)
    ensures GetServer(g, Key(name), Unfiltered) == (if name in g.server then Scalar(g.server[name]) else Null)
    ensures GetEnv(g, Key(name), Unfiltered) == (if name in g.env then Scalar(g.env[name]) else Null)
    ensures GetCookie(g, Key(name), Unfiltered) == (if name in g.cookie then Scalar(g.cookie[name]) else Null)
  {
  }

  /** Replacing one array changes what that array reads and nothing else. */
  lemma TableOfWith(g: Superglobals, which: Global, o: Global, m: map<string, string>)
    ensures Table(WithTable(g, o, m), which) == if o == which then m else Table(g, which)
  {
  }

  /**
   * A single-key lookup depends on that key's entry only: adding, changing
   * or removing any other entry of the array leaves it as it was.
   */
  lemma SingleKeyUnaffected(g: Superglobals, which: Global, name: string, other: string, v: string, f: Filter)
    requires other != name
    ensures var m := Table(g, which);
      && FetchGlobal(WithTable(g, which, m[other := v]), which, Key(name), f) == FetchGlobal(g, which, Key(name), f)
      && FetchGlobal(WithTable(g, which, m - {other}), which, Key(name), f) == FetchGlobal(g, which, Key(name), f)
  {
    var m := Table(g, which);
    TableOfWith(g, which, which, m[other := v]);
    TableOfWith(g, which, which, m - {other});
  }

  /** A lookup in one array is unaffected by whatever the other arrays hold. */
  lemma OtherArraysIrrelevant(g: Superglobals, which: Global, o: Global, m: map<string, string>, sel: Selector, f: Filter)
    requires o != which
    ensures FetchGlobal(WithTable(g, o, m), which, sel, f) == FetchGlobal(g, which, sel, f)
  {
    TableOfWith(g, which, o, m);
  }

  /**
   * `getPostGet` prefers POST and `getGetPost` prefers GET; each falls back
   * to the other array, and to null when neither holds the key.
   */
  lemma Precedence(g: Superglobals, name: string, f: Filter)
    ensures name in g.post ==> GetPostGet(g, name, f) == Scalar(ApplyFilter(f, g.post[name]))
    ensures name !in g.post && name in g.get ==> GetPostGet(g, name, f) == Scalar(ApplyFilter(f, g.get[name]))
    ensures name in g.get ==> GetGetPost(g, name, f) == Scalar(ApplyFilter(f, g.get[name]))
    ensures name !in g.get && name in g.post ==> GetGetPost(g, name, f) == Scalar(ApplyFilter(f, g.post[name]))
    ensures name !in g.get && name !in g.post ==> GetPostGet(g, name, f) == Null && GetGetPost(g, name, f) == Null
  {
  }

  // ---------------------------------------------------------------------
  // Whole-array and key-list lookups
  // ---------------------------------------------------------------------

  /** With no key and no filter, a lookup returns the whole array unchanged. */
  lemma WholeArray(g: Superglobals, which: Global)
    ensures FetchGlobal(g, which, Everything, Unfiltered) == Array(Table(g, which))
  {
    var m := Table(g, which);
    assert FilterValues(m, Unfiltered) == m;
  }

  /**
   * A key-list lookup returns exactly the listed keys the array holds, each
   * with the value the single-key lookup of that key returns.
   */
  lemma KeyListIsSubArray(g: Superglobals, which: Global, names: seq<string>, f: Filter)
    ensures var r := FetchGlobal(g, which, KeyList(names), f);
      && r.Array?
      && (forall k :: k in r.values <==> k in Table(g, which) && k in names)
      && (forall k | k in r.values :: FetchGlobal(g, which, Key(k), f) == Scalar(r.values[k]))
  {
  }

  /** Every value a key-list lookup returns is the array's own value. */
  lemma {:induction false} KeyListValues(g: Superglobals, which: Global, names: seq<string>)
    ensures var r := FetchGlobal(g, which, KeyList(names), Unfiltered);
      r.Array? && forall k | k in r.values :: r.values[k] == Table(g, which)[k]
  {
    var m := Table(g, which);
    var s := Select(m, names);
    assert FilterValues(s, Unfiltered) == s;
  }

  // ---------------------------------------------------------------------
  // The encoding filter
  // ---------------------------------------------------------------------

  /**
   * The filter is applied to each returned value: a filtered lookup is the
   * unfiltered lookup with every value encoded, for every kind of index.
   */
  lemma FilterEachValue(g: Superglobals, which: Global, sel: Selector)
    ensures FetchGlobal(g, which, sel, SanitizeEncoded) ==
            MapFetched(FetchGlobal(g, which, sel, Unfiltered), SanitizeEncoded)
  {
    var m := Table(g, which);
    match sel
    case Everything =>
      assert FilterValues(m, Unfiltered) == m;
    case Key(_) =>
    case KeyList(names) =>
      assert FilterValues(Select(m, names), Unfiltered) == Select(m, names);
  }

  /** Decoding every value of a filtered array gives the unfiltered array back. */
  lemma FilteredArrayDecodes(m: map<string, string>)
    requires AllOctets(m)
    ensures DecodeFetched(Array(FilterValues(m, SanitizeEncoded))) == Array(FilterValues(m, Unfiltered))
  {
    var e := FilterValues(m, SanitizeEncoded);
    var d := map k | k in e :: Decode(e[k]);
    forall k | k in m ensures Decode(e[k]) == m[k] {
      DecodeEncode(m[k]);
    }
    assert d == m;
    assert FilterValues(m, Unfiltered) == m;
  }

  /** A selection of an array of byte strings holds byte strings only. */
  lemma SelectOctets(m: map<string, string>, names: seq<string>)
    requires AllOctets(m)
    ensures AllOctets(Select(m, names))
  {
  }

  /** `rawurldecode` on what a filtered lookup returned gives the unfiltered lookup back. */
  lemma FilterUndone(g: Superglobals, which: Global, sel: Selector)
    requires AllOctets(Table(g, which))
    ensures DecodeFetched(FetchGlobal(g, which, sel, SanitizeEncoded)) == FetchGlobal(g, which, sel, Unfiltered)
  {
    var m := Table(g, which);
    match sel
    case Everything =>
      FilteredArrayDecodes(m);
    case Key(name) =>
      if name in m {
        DecodeEncode(m[name]);
      }
    case KeyList(names) =>
      SelectOctets(m, names);
      FilteredArrayDecodes(Select(m, names));
  }

  /** `w<script>` is filtered to `w%3Cscript%3E` when `w` passes through the filter. */
  lemma ScriptTagAfter(w: string)
    requires IsSafe(w)
    ensures Encode(w + "<script>") == w + "%3Cscript%3E"
  {
    var x := "script";
    assert IsSafe(x);
    EncodeTagged(w, x);
    assert "<" + (x + ">") == "<script>";
    assert "%3C" + (x + "%3E") == "%3Cscript%3E";
  }

  // ---------------------------------------------------------------------
  // The request tests' own arrays
  // ---------------------------------------------------------------------

  /** Superglobals holding only a POST array. */
  function PostOnly(post: map<string, string>): Superglobals
  {
    Superglobals(map[], post, map[], map[], map[])
  }

  /** POST holds `5` and GET holds `3` under the same key: each combined lookup picks its own first array. */
  lemma PostBeforeGetExample()
    ensures var g := Superglobals(map["TEST" := "3"], map["TEST" := "5"], map[], map[], map[]);
      GetPostGet(g, "TEST", Unfiltered) == Scalar("5") && GetGetPost(g, "TEST", Unfiltered) == Scalar("3")
  {
  }

  /** The four-entry POST array of the request tests, with its values as parameters. */
  function FourEntries(a: string, b: string, c: string, d: string): map<string, string>
  {
    map["foo" := a, "bar" := b, "xxx" := c, "yyy" := d]
  }

  /** The four keys are distinct. */
  lemma FourKeysDistinct()
    ensures "foo" != "bar" && "foo" != "xxx" && "foo" != "yyy"
    ensures "bar" != "xxx" && "bar" != "yyy" && "xxx" != "yyy"
  {
    assert "foo"[0] == 'f' && "bar"[0] == 'b' && "xxx"[0] == 'x' && "yyy"[0] == 'y';
  }

  /** Filtering an array with one entry added or replaced filters the rest and adds the entry filtered. */
  lemma FilterValuesUpdate(m: map<string, string>, k: string, v: string, f: Filter)
    ensures FilterValues(m[k := v], f) == FilterValues(m, f)[k := ApplyFilter(f, v)]
  {
  }

  /** Single-key lookups in the four-entry array, with any filter. */
  lemma FourEntriesByKey(a: string, b: string, c: string, d: string, f: Filter)
    ensures var g := PostOnly(FourEntries(a, b, c, d));
      && GetPost(g, Key("foo"), f) == Scalar(ApplyFilter(f, a))
      && GetPost(g, Key("bar"), f) == Scalar(ApplyFilter(f, b))
  {
    FourKeysDistinct();
  }

  /** The no-key lookup of the four-entry array, with any filter. */
  lemma FourEntriesWhole(a: string, b: string, c: string, d: string, f: Filter)
    ensures GetPost(PostOnly(FourEntries(a, b, c, d)), Everything, f) ==
            Array(FourEntries(ApplyFilter(f, a), ApplyFilter(f, b), ApplyFilter(f, c), ApplyFilter(f, d)))
  {
    var m0: map<string, string> := map[];
    var m1 := m0["foo" := a];
    var m2 := m1["bar" := b];
    var m3 := m2["xxx" := c];
    assert FilterValues(m0, f) == map[];
    FilterValuesUpdate(m0, "foo", a, f);
    FilterValuesUpdate(m1, "bar", b, f);
    FilterValuesUpdate(m2, "xxx", c, f);
    FilterValuesUpdate(m3, "yyy", d, f);
  }

  /** Selecting `['foo', 'bar']` from an array holding both keys. */
  lemma SelectFooBar(m: map<string, string>)
    requires "foo" in m && "bar" in m
    ensures Select(m, ["foo", "bar"]) == map["bar" := m["bar"]]["foo" := m["foo"]]
  {
    assert ["foo", "bar"][1..] == ["bar"];
    assert ["bar"][1..] == [];
  }

  /** The key-list lookup `['foo', 'bar']` of the four-entry array, with any filter. */
  lemma FourEntriesFooBar(a: string, b: string, c: string, d: string, f: Filter)
    ensures GetPost(PostOnly(FourEntries(a, b, c, d)), KeyList(["foo", "bar"]), f) ==
            Array(map["bar" := ApplyFilter(f, b), "foo" := ApplyFilter(f, a)])
  {
    var post := FourEntries(a, b, c, d);
    FourKeysDistinct();
    assert post["foo"] == a && post["bar"] == b;
    SelectFooBar(post);
    var m0: map<string, string> := map[];
    var m1 := m0["bar" := b];
    assert FilterValues(m0, f) == map[];
    FilterValuesUpdate(m0, "bar", b, f);
    FilterValuesUpdate(m1, "foo", a, f);
  }

  /** A word of three lower-case letters followed by `<script>`, filtered. */
  lemma WordTagEncoded(w: string)
    requires IsWord(w)
    ensures Encode(w + "<script>") == w + "%3Cscript%3E"
  {
    ScriptTagAfter(w);
  }

  /** One key of the four-entry POST array is fetched alone; a missing key gives null. */
  lemma SingleValueExample()
    ensures var g := PostOnly(map["foo" := "bar", "bar" := "baz", "xxx" := "yyy", "yyy" := "zzz"]);
      GetPost(g, Key("bar"), Unfiltered) == Scalar("baz") && GetPost(g, Key("TESTY"), Unfiltered) == Null
  {
    FourEntriesByKey("bar", "baz", "yyy", "zzz", Unfiltered);
  }

  /** A filtered single value: `bar<script>` comes back as `bar%3Cscript%3E`. */
  lemma FilterSingleValueExample()
    ensures var g := PostOnly(map["foo" := "bar<script>", "bar" := "baz", "xxx" := "yyy", "yyy" := "zzz"]);
      GetPost(g, Key("foo"), SanitizeEncoded) == Scalar("bar%3Cscript%3E")
  {
    FourEntriesByKey("bar<script>", "baz", "yyy", "zzz", SanitizeEncoded);
    BarScriptEncoded();
  }

  /** With no key, the whole POST array comes back. */
  lemma WholeArrayExample()
    ensures var post := map["foo" := "bar", "bar" := "baz", "xxx" := "yyy", "yyy" := "zzz"];
      GetPost(PostOnly(post), Everything, Unfiltered) == Array(post)
  {
    FourEntriesWhole("bar", "baz", "yyy", "zzz", Unfiltered);
  }

  /** Three lower-case letters. */
  predicate IsWord(w: string)
  {
    |w| == 3 && forall i | 0 <= i < 3 :: 'a' <= w[i] <= 'z'
  }

  /** The request tests' tagged values, spelled as a word and the tag. */
  lemma TaggedLiterals()
    ensures var t := "<script>";
      "bar" + t == "bar<script>" && "baz" + t == "baz<script>" &&
      "yyy" + t == "yyy<script>" && "zzz" + t == "zzz<script>"
    ensures var e := "%3Cscript%3E";
      "bar" + e == "bar%3Cscript%3E" && "baz" + e == "baz%3Cscript%3E" &&
      "yyy" + e == "yyy%3Cscript%3E" && "zzz" + e == "zzz%3Cscript%3E"
    ensures IsWord("bar") && IsWord("baz") && IsWord("yyy") && IsWord("zzz")
  {
  }

  /** The no-key filtered lookup of four-entry arrays whose values are words followed by `<script>`. */
  lemma TaggedWhole(a: string, b: string, c: string, d: string)
    requires IsWord(a) && IsWord(b) && IsWord(c) && IsWord(d)
    ensures var t, e := "<script>", "%3Cscript%3E";
      GetPost(PostOnly(FourEntries(a + t, b + t, c + t, d + t)), Everything, SanitizeEncoded) ==
      Array(FourEntries(a + e, b + e, c + e, d + e))
  {
    var t := "<script>";
    FourEntriesWhole(a + t, b + t, c + t, d + t, SanitizeEncoded);
    WordTagEncoded(a);
    WordTagEncoded(b);
    WordTagEncoded(c);
    WordTagEncoded(d);
  }

  /** With no key and the filter, every value of the POST array comes back filtered. */
  lemma FilterAllValuesExample(post: map<string, string>)
    requires post == map["foo" := "bar<script>", "bar" := "baz<script>",
                         "xxx" := "yyy<script>", "yyy" := "zzz<script>"]
    ensures GetPost(PostOnly(post), Everything, SanitizeEncoded) ==
      Array(map["foo" := "bar%3Cscript%3E", "bar" := "baz%3Cscript%3E",
                "xxx" := "yyy%3Cscript%3E", "yyy" := "zzz%3Cscript%3E"])
  {
    var t, e := "<script>", "%3Cscript%3E";
    TaggedLiterals();
    assert post == FourEntries("bar" + t, "baz" + t, "yyy" + t, "zzz" + t);
    TaggedWhole("bar", "baz", "yyy", "zzz");
    assert FourEntries("bar" + e, "baz" + e, "yyy" + e, "zzz" + e) ==
           map["foo" := "bar%3Cscript%3E", "bar" := "baz%3Cscript%3E",
               "xxx" := "yyy%3Cscript%3E", "yyy" := "zzz%3Cscript%3E"];
  }

  /** A key list `['foo', 'bar']` gives just those two entries. */
  lemma SelectedKeysExample()
    ensures var g := PostOnly(map["foo" := "bar", "bar" := "baz", "xxx" := "yyy", "yyy" := "zzz"]);
      GetPost(g, KeyList(["foo", "bar"]), Unfiltered) == Array(map["bar" := "baz", "foo" := "bar"])
  {
    FourEntriesFooBar("bar", "baz", "yyy", "zzz", Unfiltered);
  }

  /** The filtered key-list lookup `['foo', 'bar']` of four-entry arrays of tagged words. */
  lemma TaggedFooBar(a: string, b: string, c: string, d: string)
    requires IsWord(a) && IsWord(b)
    ensures var t, e := "<script>", "%3Cscript%3E";
      GetPost(PostOnly(FourEntries(a + t, b + t, c + t, d + t)), KeyList(["foo", "bar"]), SanitizeEncoded) ==
      Array(map["bar" := b + e, "foo" := a + e])
  {
    var t := "<script>";
    FourEntriesFooBar(a + t, b + t, c + t, d + t, SanitizeEncoded);
    WordTagEncoded(a);
    WordTagEncoded(b);
  }

  /** A key list with the filter gives those two entries, filtered. */
  lemma FilterSelectedValuesExample(post: map<string, string>)
    requires post == map["foo" := "bar<script>", "bar" := "baz<script>",
                         "xxx" := "yyy<script>", "yyy" := "zzz<script>"]
    ensures GetPost(PostOnly(post), KeyList(["foo", "bar"]), SanitizeEncoded) ==
      Array(map["bar" := "baz%3Cscript%3E", "foo" := "bar%3Cscript%3E"])
  {
    var t, e := "<script>", "%3Cscript%3E";
    TaggedLiterals();
    assert post == FourEntries("bar" + t, "baz" + t, "yyy" + t, "zzz" + t);
    TaggedFooBar("bar", "baz", "yyy", "zzz");
  }
}
