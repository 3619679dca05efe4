/** docs/app.js: where the client's data come from (the API, else the
    static `revendications.json` adapted to the API's shape) and the hash
    router choosing between the dashboard and a category section. */
module App {
  import opened Common
  import opened OrderedMap
  import opened Demands
  import opened Store

  // ------------------------------------------------------ static adapter

  /** One entry of the static file's `sections`. */
  datatype Section = Section(titre: string, revendications: seq<string>)

  /** `toLowerCase` on the letters that have a one-to-one lower case in
      Basic Latin and Latin-1: A–Z and À–Þ except ×. */
  function LowerChar(c: char): (l: char)
    ensures 'A' <= c <= 'Z' ==> 'a' <= l <= 'z'
    ensures !('A' <= c <= 'Z') && !('À' <= c <= 'Þ') ==> l == c
  {
    if 'A' <= c <= 'Z' then (c as int + 32) as char
    else if 'À' <= c <= 'Þ' && c != '×' then (c as int + 32) as char
    else c
  }

  /** Index of the first `c` in `s`, or |s| when there is none. */
  function FirstIndex(s: string, c: char): (j: nat)
    ensures j <= |s|
    ensures j < |s| ==> s[j] == c
    ensures c !in s[..j]
  {
    if s == [] then 0
    else if s[0] == c then 0
    else
      var j := FirstIndex(s[1..], c);
      assert s[..j + 1] == [s[0]] + s[1..][..j];
      j + 1
  }

  /** `s.replace('é', 'e')`: a string pattern replaces its first occurrence
      only. */
  function ReplaceFirst(s: string, from: char, to: char): (r: string)
    ensures |r| == |s|
    ensures from !in s ==> r == s
    ensures from in s ==> exists j :: 0 <= j < |s| && s[j] == from && from !in s[..j] && r == s[j := to]
  {
    var j := FirstIndex(s, from);
    if j < |s| then s[j := to]
    else
      assert s[..j] == s;
      s
  }

  /** `titre.toLowerCase().replace(/ /g, '_')`. */
  function Underscored(titre: string): (u: string)
    ensures |u| == |titre|
    ensures forall i :: 0 <= i < |titre| ==> u[i] == if titre[i] == ' ' then '_' else LowerChar(titre[i])
  {
    seq(|titre|, i requires 0 <= i < |titre| => if titre[i] == ' ' then '_' else LowerChar(titre[i]))
  }

  /** The category key of a static section. */
  function StaticKey(titre: string): (key: string)
    ensures |key| == |titre|
  {
    ReplaceFirst(Underscored(titre), 'é', 'e')
  }

  /** The key has no space and no capital A–Z; every other character is the
      lowered title character, except the first 'é', which becomes 'e'. */
  lemma StaticKeyShape(titre: string)
    ensures var key := StaticKey(titre);
      && (forall i :: 0 <= i < |key| ==> key[i] != ' ' && !('A' <= key[i] <= 'Z'))
      && (forall i :: 0 <= i < |titre| && titre[i] == ' ' ==> key[i] == '_')
      && ('é' !in Underscored(titre) ==> key == Underscored(titre))
      && ('é' in Underscored(titre) ==>
            exists j :: 0 <= j < |key| && Underscored(titre)[j] == 'é' && 'é' !in Underscored(titre)[..j]
              && key == Underscored(titre)[j := 'e'])
  {
  }

  /** Only the first 'é' goes: a section titled "Égalité Réelle" is filed
      under 'egalité_réelle'. */
  lemma StaticKeyExample()
    ensures StaticKey("Égalité Réelle") == "egalité_réelle"
  {
    var u := Underscored("Égalité Réelle");
    assert u == "égalité_réelle";
    assert FirstIndex(u, 'é') == 0;
  }

  /** The records of one static section: `revendications.map((r, i) => …)`. */
  function AdaptSection(key: string, revendications: seq<string>): (ds: seq<Demand>)
    ensures |ds| == |revendications|
    ensures forall i :: 0 <= i < |ds| ==>
      && ds[i].revendication == revendications[i]
      && ds[i].id == key + "-" + NatToString(i)
      && ds[i].category == key
  {
    seq(|revendications|, i requires 0 <= i < |revendications| =>
      Demand(key + "-" + NatToString(i), key, revendications[i], ZeroVotes, 0, DefaultRicType, DefaultPriority, 0))
  }

  /** A static record is exactly what the server's loader makes of a bare
      record holding only its text: the two modes agree on every default. */
  lemma AdaptedMatchesServerNormalisation(key: string, revendications: seq<string>, i: nat)
    requires i < |revendications|
    ensures AdaptSection(key, revendications)[i] ==
      Normalise(key, i, RawRecord(None, None, revendications[i], None, None, None, None, None))
    ensures Consistent(AdaptSection(key, revendications)[i])
  {
  }

  /** `oldData.sections.forEach(section => allData[key] = …)`: a title that
      maps to a key already present replaces its records in place. */
  function AdaptStatic(acc: Corpus, sections: seq<Section>): (c: Corpus)
    decreases |sections|
  {
    if sections == [] then acc
    else
      var key := StaticKey(sections[0].titre);
      AdaptStatic(Put(acc, key, AdaptSection(key, sections[0].revendications)), sections[1..])
  }

  /** Every category built from the static file has distinct keys, each
      key comes from a section title, and its records are consistent. */
  lemma {:induction false} AdaptStaticProperties(acc: Corpus, sections: seq<Section>)
    requires DistinctKeys(acc) && AllConsistent(acc)
    ensures var c := AdaptStatic(acc, sections);
      && DistinctKeys(c)
      && AllConsistent(c)
      && (forall k :: 0 <= k < |c| ==>
            HasKey(acc, c[k].0) || exists s :: 0 <= s < |sections| && StaticKey(sections[s].titre) == c[k].0)
    decreases |sections|
  {
    if sections != [] {
      var key := StaticKey(sections[0].titre);
      var ds := AdaptSection(key, sections[0].revendications);
      var acc' := Put(acc, key, ds);
      PutKeepsDistinct(acc, key, ds);
      PutShape(acc, key, ds);
      assert AllConsistent(acc') by {
        forall k, j | 0 <= k < |acc'| && 0 <= j < |acc'[k].1| ensures Consistent(acc'[k].1[j]) {
          if acc'[k].0 != key || (k < |acc| && acc'[k] == acc[k]) {
            assert acc'[k] == acc[k];
          } else {
            assert acc'[k].1 == ds;
            AdaptedMatchesServerNormalisation(key, sections[0].revendications, j);
          }
        }
      }
      AdaptStaticProperties(acc', sections[1..]);
      var c := AdaptStatic(acc, sections);
      forall k | 0 <= k < |c|
        ensures HasKey(acc, c[k].0) || exists s :: 0 <= s < |sections| && StaticKey(sections[s].titre) == c[k].0
      {
        if HasKey(acc', c[k].0) && !HasKey(acc, c[k].0) {
          PutHasKey(acc, key, ds, c[k].0);
          assert StaticKey(sections[0].titre) == c[k].0;
        } else if !HasKey(acc', c[k].0) {
          var s :| 0 <= s < |sections[1..]| && StaticKey(sections[1..][s].titre) == c[k].0;
          assert sections[s + 1] == sections[1..][s];
        }
      }
    }
  }

  /** `initialize`: the API's data when it answers; otherwise the adapted
      static file; otherwise nothing (an error message, no routing). */
  function Initialize(api: Option<Corpus>, staticFile: Option<seq<Section>>): (data: Option<Corpus>)
    ensures api.Some? ==> data == api
    ensures api.None? && staticFile.Some? ==> data == Some(AdaptStatic([], staticFile.value))
    ensures api.None? && staticFile.None? ==> data.None?
  {
    if api.Some? then api
    else if staticFile.Some? then Some(AdaptStatic([], staticFile.value))
    else None
  }

  /** Whichever source answers, the client's data have distinct category
      keys and consistent records, given that the API serves the server's
      loaded corpus; the fallback's keys all come from section titles, and
      there are no data only when both sources fail. */
  lemma InitializeProperties(api: Option<Corpus>, staticFile: Option<seq<Section>>)
    ensures var data := Initialize(api, staticFile);
      && (data.None? <==> api.None? && staticFile.None?)
      && (data.Some? && (api.Some? ==> Loaded(api.value)) ==>
            DistinctKeys(data.value) && AllConsistent(data.value))
      && (api.None? && staticFile.Some? ==>
            forall k :: 0 <= k < |data.value| ==>
              exists s :: 0 <= s < |staticFile.value| && StaticKey(staticFile.value[s].titre) == data.value[k].0)
  {
    if api.Some? && Loaded(api.value) {
      LoadedIsConsistent(api.value);
    }
    if api.None? && staticFile.Some? {
      AdaptStaticProperties([], staticFile.value);
    }
  }

  // ------------------------------------------------------------- routing

  /** `location.hash.substring(1)`. */
  function HashRoute(hash: string): string
  {
    if |hash| >= 1 then hash[1..] else ""
  }

  /** `Object.keys(allData)[0] || 'dashboard'`. */
  function FirstCategory(data: Corpus): (first: string)
    ensures first != ""
    ensures first == "dashboard" || HasKey(data, first)
    ensures |data| > 0 && data[0].0 != "" ==> first == data[0].0
    ensures |data| == 0 || data[0].0 == "" ==> first == "dashboard"
  {
    if |data| > 0 && data[0].0 != "" then data[0].0 else "dashboard"
  }

  /** `hash || firstCategory`. */
  function TargetRoute(data: Corpus, hash: string): (target: string)
    ensures HashRoute(hash) != "" ==> target == HashRoute(hash)
    ensures HashRoute(hash) == "" ==> target == FirstCategory(data)
  {
    var h := HashRoute(hash);
    if h != "" then h else FirstCategory(data)
  }

  datatype Route =
    | Dashboard
    | ShowCategory(key: string)
    | Redirect(hash: string)   // `location.hash = '#' + firstCategory`
    | Stay                     // unknown route that already is the default

  /** `handleRouting`. */
  function HandleRouting(data: Corpus, hash: string): (r: Route)
    ensures r == Dashboard <==> TargetRoute(data, hash) == "dashboard"
    ensures r.ShowCategory? <==> TargetRoute(data, hash) != "dashboard" && HasKey(data, TargetRoute(data, hash))
    ensures r.ShowCategory? ==> r.key == TargetRoute(data, hash)
    ensures r.Redirect? ==> r.hash == "#" + FirstCategory(data) && TargetRoute(data, hash) != FirstCategory(data)
  {
    var target := TargetRoute(data, hash);
    var first := FirstCategory(data);
    if target == "dashboard" then Dashboard
    else if HasKey(data, target) then ShowCategory(target)
    else if target != first then Redirect("#" + first)
    else Stay
  }

  // ------------------------------------------------ the hash read back

  /** A character the `location.hash` setter keeps as it is. The fragment
      percent-encode set of the URL Standard (section 1.3) holds the C0
      controls, space, '"', '<', '>', '`' and every code point above '~'. */
  predicate HashSafeChar(c: char)
  {
    ' ' < c <= '~' && c != '"' && c != '<' && c != '>' && c != '`'
  }

  predicate HashSafe(s: string)
  {
    forall i :: 0 <= i < |s| ==> HashSafeChar(s[i])
  }

  /** The UTF-8 bytes of a code point. */
  function Utf8(c: char): (bs: seq<int>)
    ensures 1 <= |bs| <= 4
  {
    var n := c as int;
    if n < 0x80 then [n]
    else if n < 0x800 then [0xC0 + n / 64, 0x80 + n % 64]
    else if n < 0x10000 then [0xE0 + n / 4096, 0x80 + (n / 64) % 64, 0x80 + n % 64]
    else [0xF0 + n / 262144, 0x80 + (n / 4096) % 64, 0x80 + (n / 64) % 64, 0x80 + n % 64]
  }

  function HexDigit(d: int): (h: char)
    ensures HashSafeChar(h)
  {
    var v := d % 16;
    if v < 10 then ('0' as int + v) as char else ('A' as int + v - 10) as char
  }

  /** `%XX` for each byte, upper-case hexadecimal. */
  function PercentBytes(bs: seq<int>): (e: string)
    ensures HashSafe(e)
  {
    if bs == [] then []
    else ['%', HexDigit(bs[0] / 16), HexDigit(bs[0])] + PercentBytes(bs[1..])
  }

  function EncodeChar(c: char): (e: string)
    ensures HashSafe(e)
    ensures HashSafeChar(c) <==> e == [c]
  {
    if HashSafeChar(c) then [c] else PercentBytes(Utf8(c))
  }

  /** The fragment as `location.hash` reads it back after the setter
      percent-encoded it. */
  function EncodeFragment(s: string): string
  {
    if s == [] then [] else EncodeChar(s[0]) + EncodeFragment(s[1..])
  }

  /** The read-back fragment only holds characters the setter keeps, and it
      is the written one exactly when that one held only those: encoding is
      idempotent, and changes every fragment it does not keep. */
  lemma {:induction false} EncodeFragmentShape(s: string)
    ensures HashSafe(EncodeFragment(s))
    ensures HashSafe(s) <==> EncodeFragment(s) == s
    ensures EncodeFragment(EncodeFragment(s)) == EncodeFragment(s)
    ensures !HashSafe(s) ==> '%' in EncodeFragment(s)
  {
    if s != [] {
      EncodeFragmentShape(s[1..]);
      var e0, rest := EncodeChar(s[0]), EncodeFragment(s[1..]);
      assert EncodeFragment(s) == e0 + rest;
      assert HashSafe(e0 + rest) by {
        forall i | 0 <= i < |e0 + rest| ensures HashSafeChar((e0 + rest)[i]) {
          if i >= |e0| { assert (e0 + rest)[i] == rest[i - |e0|]; }
        }
      }
      if HashSafe(s) {
        assert HashSafe(s[1..]) by {
          forall i | 0 <= i < |s[1..]| ensures HashSafeChar(s[1..][i]) { assert s[1..][i] == s[i + 1]; }
        }
        assert HashSafeChar(s[0]);
        assert [s[0]] + s[1..] == s;
      } else {
        if HashSafeChar(s[0]) {
          assert !HashSafe(s[1..]) by {
            var i :| 0 <= i < |s| && !HashSafeChar(s[i]);
            assert s[1..][i - 1] == s[i];
          }
          assert '%' in rest;
        } else {
          assert e0[0] == '%';
        }
        assert '%' in e0 + rest;
      }
      SafeEncodesToItself(e0 + rest);
    }
  }

  lemma {:induction false} SafeEncodesToItself(s: string)
    requires HashSafe(s)
    ensures EncodeFragment(s) == s
  {
    if s != [] {
      assert HashSafe(s[1..]) by {
        forall i | 0 <= i < |s[1..]| ensures HashSafeChar(s[1..][i]) { assert s[1..][i] == s[i + 1]; }
      }
      SafeEncodesToItself(s[1..]);
      assert [s[0]] + s[1..] == s;
    }
  }

  /** `location.hash = written`: the hash then reads '#' and the encoded
      fragment (nothing when the fragment is empty), and `hashchange` fires
      only when that differs from what it read before. The URL parser
      strips ASCII tab, LF and CR from the written value before encoding;
      here they are encoded like any other control character, which only
      matters for keys holding them. */
  function AssignHash(current: string, written: string): (r: (string, bool))
  {
    var fragment := if |written| >= 1 && written[0] == '#' then written[1..] else written;
    var h := if fragment == [] then "" else "#" + EncodeFragment(fragment);
    (h, h != current)
  }

  /** The router always settles on a first key the setter keeps: it never
      stays on an unknown route, and a redirect changes the hash, so that the
      next `hashchange` lands on the dashboard or on the first section. */
  lemma RoutingSettles(data: Corpus, hash: string)
    ensures HandleRouting(data, hash) != Stay
    ensures HandleRouting(data, hash).Redirect? && HashSafe(FirstCategory(data)) ==>
      var (h, fires) := AssignHash(hash, HandleRouting(data, hash).hash);
      var next := HandleRouting(data, h);
      && h == "#" + FirstCategory(data)
      && fires
      && (next == Dashboard || next == ShowCategory(FirstCategory(data)))
  {
    var first := FirstCategory(data);
    assert ("#" + first)[1..] == first;
    if HashSafe(first) {
      EncodeFragmentShape(first);
    }
  }

  /** As written, a first key the setter encodes is never reached by a
      redirect: the hash reads back encoded, which names no category, so the
      router redirects to the same fragment again, and assigning the hash it
      already holds fires no `hashchange`: the router stalls. */
  lemma RedirectStallsOnEncodedKey(data: Corpus, hash: string)
    requires HandleRouting(data, hash).Redirect?
    requires !HashSafe(FirstCategory(data)) && !HasKey(data, EncodeFragment(FirstCategory(data)))
    ensures var first := FirstCategory(data);
      var (h, fires) := AssignHash(hash, "#" + first);
      && h == "#" + EncodeFragment(first)
      && h != "#" + first
      && HandleRouting(data, h) == Redirect("#" + first)
      && AssignHash(h, "#" + first) == (h, false)
  {
    var first := FirstCategory(data);
    var e := EncodeFragment(first);
    EncodeFragmentShape(first);
    ReadBack(hash, first);
    ReadBack("#" + e, first);
    EscapedIsNotDashboard(e);
    RedirectAgain(data, e);
  }

  /** No encoded fragment reads 'dashboard'. */
  lemma EscapedIsNotDashboard(e: string)
    requires '%' in e
    ensures e != "dashboard"
  {
  }

  /** A hash naming neither the dashboard nor a category nor the first key
      redirects to the first key. */
  lemma RedirectAgain(data: Corpus, fragment: string)
    requires fragment != "" && fragment != "dashboard" && fragment != FirstCategory(data)
    requires !HasKey(data, fragment)
    ensures HandleRouting(data, "#" + fragment) == Redirect("#" + FirstCategory(data))
  {
    HashOf(fragment);
  }

  /** Assigning '#' and a non-empty fragment reads back '#' and its
      encoding. */
  lemma ReadBack(current: string, fragment: string)
    requires fragment != ""
    ensures AssignHash(current, "#" + fragment).0 == "#" + EncodeFragment(fragment)
  {
    assert ("#" + fragment)[1..] == fragment;
  }

  lemma HashOf(fragment: string)
    ensures HashRoute("#" + fragment) == fragment
    ensures ("#" + fragment)[1..] == fragment
  {
    assert ("#" + fragment)[1..] == fragment;
  }

  /** As written, a menu link to a key the setter encodes never shows its
      section: the hash reads back encoded, and that names no category. */
  lemma MenuClickMissesEncodedKey(data: Corpus, current: string, key: string)
    requires !HashSafe(key) && !HasKey(data, EncodeFragment(key))
    ensures var (h, _) := AssignHash(current, "#" + key);
      !HandleRouting(data, h).ShowCategory?
  {
    EncodeFragmentShape(key);
    assert ("#" + key)[1..] == key;
    assert key != [];
    var e := EncodeFragment(key);
    assert ("#" + e)[1..] == e;
  }

  /** With a single section whose key the setter encodes, an unknown route
      redirects to it, the hash reads back encoded, the router redirects to
      the same fragment again, and no `hashchange` follows: the section is
      never shown. */
  lemma SingleSectionStalls(key: string, unknown: string)
    requires !HashSafe(key)
    requires unknown != "" && unknown != "dashboard" && unknown != key
    ensures var data: Corpus := [(key, [])];
      var h := AssignHash("#" + unknown, "#" + key).0;
      && HandleRouting(data, "#" + unknown) == Redirect("#" + key)
      && HandleRouting(data, h) == Redirect("#" + key)
      && AssignHash(h, "#" + key) == (h, false)
  {
    var data: Corpus := [(key, [])];
    EncodeFragmentShape(key);
    assert data[0].0 == key;
    RedirectAgain(data, unknown);
    RedirectStallsOnEncodedKey(data, "#" + unknown);
  }

  /** The static key of "Égalité Réelle" keeps an 'é', so with that section
      alone the router stalls on an unknown route such as '#inconnu'. */
  lemma StaticKeyStallExample()
    ensures var key := StaticKey("Égalité Réelle");
      var data: Corpus := [(key, [])];
      var unknown := "#" + "inconnu";
      var h := AssignHash(unknown, "#" + key).0;
      && key == "egalité_réelle"
      && !HashSafe(key)
      && HandleRouting(data, unknown) == Redirect("#" + key)
      && HandleRouting(data, h) == Redirect("#" + key)
      && AssignHash(h, "#" + key) == (h, false)
  {
    StaticKeyExample();
    var key := StaticKey("Égalité Réelle");
    assert !HashSafeChar(key[6]);
    SingleSectionStalls(key, "inconnu");
  }

  // ------------------------------------------ the key evidently intended

  /** `replace(/é/g, 'e')`: every 'é' goes. */
  function ReplaceAll(s: string, from: char, to: char): (r: string)
    ensures |r| == |s|
    ensures forall i :: 0 <= i < |s| ==> r[i] == if s[i] == from then to else s[i]
  {
    seq(|s|, i requires 0 <= i < |s| => if s[i] == from then to else s[i])
  }

  /** The static key with every 'é' replaced, as the `/ /g` before it
      replaces every space. */
  function IntendedStaticKey(titre: string): (key: string)
  {
    ReplaceAll(Underscored(titre), 'é', 'e')
  }

  /** Replacing every 'é' leaves none, and a title whose lowered form holds
      no other character the setter encodes gives a key that the hash reads
      back unchanged, so that a redirect to it settles (`RoutingSettles`):
      "Égalité Réelle" is filed under 'egalite_reelle'. */
  lemma IntendedStaticKeyIsHashSafe(titre: string)
    ensures 'é' !in IntendedStaticKey(titre)
    ensures (forall i :: 0 <= i < |titre| ==> HashSafeChar(Underscored(titre)[i]) || Underscored(titre)[i] == 'é') ==>
      HashSafe(IntendedStaticKey(titre))
    ensures IntendedStaticKey("Égalité Réelle") == "egalite_reelle"
  {
    assert Underscored("Égalité Réelle") == "égalité_réelle";
  }

  /** Marks the navigation links whose `href` is `'#' + target`. */
  function ActiveLinks(hrefs: seq<string>, target: string): (active: seq<bool>)
    ensures |active| == |hrefs|
    ensures forall i :: 0 <= i < |hrefs| ==> (active[i] <==> hrefs[i] == "#" + target)
  {
    seq(|hrefs|, i requires 0 <= i < |hrefs| => hrefs[i] == "#" + target)
  }

  /** Every link names a route the router knows: the dashboard or a
      category of the data. */
  predicate LinksToKnownRoutes(data: Corpus, hrefs: seq<string>)
  {
    forall i :: 0 <= i < |hrefs| ==>
      |hrefs[i]| >= 1 && hrefs[i][0] == '#' && (hrefs[i][1..] == "dashboard" || HasKey(data, hrefs[i][1..]))
  }

  /** The highlighted links follow the route: on the dashboard or a section
      exactly the links to it are active; while redirecting away from an
      unknown route no link to a known route is active. */
  lemma ActiveLinksFollowRoute(data: Corpus, hash: string, hrefs: seq<string>)
    ensures var route := HandleRouting(data, hash);
      var active := ActiveLinks(hrefs, TargetRoute(data, hash));
      && (route == Dashboard ==> forall i :: 0 <= i < |hrefs| ==> (active[i] <==> hrefs[i] == "#dashboard"))
      && (route.ShowCategory? ==> forall i :: 0 <= i < |hrefs| ==> (active[i] <==> hrefs[i] == "#" + route.key))
      && (route.Redirect? && LinksToKnownRoutes(data, hrefs) ==> forall i :: 0 <= i < |hrefs| ==> !active[i])
  {
    var target := TargetRoute(data, hash);
    forall i | 0 <= i < |hrefs| && hrefs[i] == "#" + target
      ensures hrefs[i][1..] == target
    {
      assert ("#" + target)[1..] == target;
    }
    if HandleRouting(data, hash) == Dashboard {
      assert "#" + target == "#dashboard";
    }
  }
}
