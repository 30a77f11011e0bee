/** The static country-to-continent table of the reading passport
    (lib/continents.ts): ISO 3166 alpha-2 codes grouped under seven continents,
    with a colour and an emoji per continent. */
module Continents {
  import Seqs
  import Wrappers

  /** `CONTINENTS`, in declaration order. */
  const AllContinents: seq<string> :=
    ["Africa", "Asia", "Europe", "North America", "South America", "Oceania", "Antarctica"]

  /** The name reported for a code the table does not know. */
  const Unknown: string := "Unknown"

  // The keys of `CONTINENT_MAP`, continent by continent, in declaration order.
  const AfricaCodes: seq<string> := [
    "DZ", "AO", "BJ", "BW", "BF", "BI", "CV", "CM", "CF", "TD", "KM", "CG",
    "CD", "CI", "DJ", "EG", "GQ", "ER", "SZ", "ET", "GA", "GM", "GH", "GN",
    "GW", "KE", "LS", "LR", "LY", "MG", "MW", "ML", "MR", "MU", "MA", "MZ",
    "NA", "NE", "NG", "RW", "ST", "SN", "SC", "SL", "SO", "ZA", "SS", "SD",
    "TZ", "TG", "TN", "UG", "ZM", "ZW", "EH", "YT", "RE", "SH"
  ]

  const AsiaCodes: seq<string> := [
    "AF", "AM", "AZ", "BH", "BD", "BT", "BN", "KH", "CN", "CY", "GE", "HK",
    "IN", "ID", "IR", "IQ", "IL", "JP", "JO", "KZ", "KW", "KG", "LA", "LB",
    "MO", "MY", "MV", "MN", "MM", "NP", "KP", "OM", "PK", "PS", "PH", "QA",
    "SA", "SG", "KR", "LK", "SY", "TW", "TJ", "TH", "TL", "TR", "TM", "AE",
    "UZ", "VN", "YE"
  ]

  const EuropeCodes: seq<string> := [
    "AL", "AD", "AT", "BY", "BE", "BA", "BG", "HR", "CZ", "DK", "EE", "FO",
    "FI", "FR", "DE", "GI", "GR", "HU", "IS", "IE", "IM", "IT", "LV", "LI",
    "LT", "LU", "MT", "MD", "MC", "ME", "NL", "MK", "NO", "PL", "PT", "RO",
    "RU", "SM", "RS", "SK", "SI", "ES", "SE", "CH", "UA", "GB", "VA", "GL"
  ]

  const NorthAmericaCodes: seq<string> := [
    "AI", "AG", "AW", "BS", "BB", "BZ", "BM", "VG", "CA", "KY", "CR", "CU",
    "CW", "DM", "DO", "SV", "GD", "GT", "HT", "HN", "JM", "MX", "MS", "NI",
    "PA", "PR", "BL", "KN", "LC", "MF", "PM", "VC", "SX", "TT", "TC", "US",
    "VI"
  ]

  const SouthAmericaCodes: seq<string> := [
    "AR", "BO", "BR", "CL", "CO", "EC", "FK", "GY", "PY", "PE", "SR", "UY",
    "VE"
  ]

  const OceaniaCodes: seq<string> := [
    "AS", "AU", "CK", "FJ", "PF", "GU", "KI", "MH", "FM", "NR", "NC", "NZ",
    "NU", "NF", "MP", "PW", "PG", "WS", "SB", "TK", "TO", "TV", "VU", "WF"
  ]

  const AntarcticaCodes: seq<string> := [
    "AQ"
  ]

  /** One block of the table: the codes listed under one continent. */
  datatype Section = Section(codes: seq<string>, continent: string)

  /** The table's blocks, in the order they are written. */
  const Sections: seq<Section> := [
    Section(AfricaCodes, "Africa"), Section(AsiaCodes, "Asia"), Section(EuropeCodes, "Europe"),
    Section(NorthAmericaCodes, "North America"), Section(SouthAmericaCodes, "South America"),
    Section(OceaniaCodes, "Oceania"), Section(AntarcticaCodes, "Antarctica")
  ]

  /** The object literal built from `sections`: a later entry for a key
      replaces an earlier one, as in a JavaScript object literal (and as the
      right operand of `+` on maps does). */
  function TableOf(sections: seq<Section>): map<string, string> {
    if sections == [] then map[]
    else (map c | c in sections[0].codes :: sections[0].continent) + TableOf(sections[1..])
  }

  /** Every key of the object comes from a block that lists it, with that
      block's continent, and every listed code is a key. */
  lemma TableOfMeaning(sections: seq<Section>)
    ensures forall c | c in TableOf(sections) :: exists i | 0 <= i < |sections| ::
      c in sections[i].codes && TableOf(sections)[c] == sections[i].continent
    ensures forall i, c | 0 <= i < |sections| && c in sections[i].codes :: c in TableOf(sections)
  {
    TableOfValues(sections);
    TableOfKeys(sections);
  }

  lemma {:induction false} TableOfValues(sections: seq<Section>)
    ensures forall c | c in TableOf(sections) :: exists i | 0 <= i < |sections| ::
      c in sections[i].codes && TableOf(sections)[c] == sections[i].continent
  {
    if sections != [] {
      var rest := sections[1..];
      var tail := TableOf(rest);
      var m := TableOf(sections);
      TableOfValues(rest);
      forall c | c in m
        ensures exists i | 0 <= i < |sections| :: c in sections[i].codes && m[c] == sections[i].continent
      {
        if c in tail {
          var j :| 0 <= j < |rest| && c in rest[j].codes && tail[c] == rest[j].continent;
          assert m[c] == tail[c];
          assert rest[j] == sections[j + 1];
        } else {
          assert c in sections[0].codes && m[c] == sections[0].continent;
        }
      }
    }
  }

  lemma {:induction false} TableOfKeys(sections: seq<Section>)
    ensures forall i, c | 0 <= i < |sections| && c in sections[i].codes :: c in TableOf(sections)
  {
    if sections != [] {
      var rest := sections[1..];
      TableOfKeys(rest);
      forall i, c | 0 <= i < |sections| && c in sections[i].codes ensures c in TableOf(sections) {
        if i > 0 {
          assert rest[i - 1] == sections[i];
          assert c in TableOf(rest);
        }
      }
    }
  }

  /** The codes of `sections`, in the order they are written. */
  function CodesOf(sections: seq<Section>): (r: seq<string>)
    ensures forall c | c in r :: exists i | 0 <= i < |sections| :: c in sections[i].codes
    ensures forall i, c | 0 <= i < |sections| && c in sections[i].codes :: c in r
  {
    if sections == [] then []
    else
      assert forall i | 1 <= i < |sections| :: sections[1..][i - 1] == sections[i];
      sections[0].codes + CodesOf(sections[1..])
  }

  /** `Object.keys` of the object built from `sections`: every key once, at
      the position of its first entry. */
  function KeysOf(sections: seq<Section>): (r: seq<string>)
    ensures Seqs.NoDuplicates(r)
    ensures forall c :: c in r <==> c in TableOf(sections)
  {
    TableOfMeaning(sections);
    var codes := CodesOf(sections);
    var r := Seqs.Dedup(codes);
    assert forall c | c in codes :: c in r by {
      forall c | c in codes ensures c in r {
        var k :| 0 <= k < |codes| && codes[k] == c;
      }
    }
    r
  }

  /** `CONTINENT_MAP`. */
  const ContinentMap: map<string, string> := TableOf(Sections)

  /** `Object.keys(CONTINENT_MAP)`. */
  function TableKeys(): (r: seq<string>)
    ensures Seqs.NoDuplicates(r)
    ensures forall c :: c in r <==> c in ContinentMap
  {
    KeysOf(Sections)
  }

  lemma SectionsNameContinents()
    ensures forall i | 0 <= i < |Sections| :: Sections[i].continent in AllContinents
  {
  }

  /** The object built from `sections` only holds the blocks' continents. */
  lemma TableValuesAmong(sections: seq<Section>, names: seq<string>)
    requires forall i | 0 <= i < |sections| :: sections[i].continent in names
    ensures forall c | c in TableOf(sections) :: TableOf(sections)[c] in names
  {
    TableOfMeaning(sections);
  }

  /** Every value of the table is one of `CONTINENTS`. */
  lemma TableValuesAreContinents()
    ensures forall c | c in ContinentMap :: ContinentMap[c] in AllContinents
    ensures Unknown !in AllContinents
    ensures forall c | c in ContinentMap :: ContinentMap[c] != "" && ContinentMap[c] != Unknown
  {
    SectionsNameContinents();
    TableValuesAmong(Sections, AllContinents);
    ContinentNamesArePlain();
  }

  lemma ContinentNamesArePlain()
    ensures forall k | 0 <= k < |AllContinents| :: AllContinents[k] != "" && AllContinents[k] != Unknown
  {
  }

  /** The entry for `code` in the object built from `sections`, looked up
      block by block; the last block that lists the code wins, as in `TableOf`. */
  function Find(sections: seq<Section>, code: string): (r: Wrappers.Option<string>)
    ensures r.Some? ==> exists i | 0 <= i < |sections| :: r.value == sections[i].continent
  {
    if sections == [] then Wrappers.None
    else
      match Find(sections[1..], code)
      case Some(c) =>
        assert forall i | 1 <= i < |sections| :: sections[1..][i - 1] == sections[i];
        Wrappers.Some(c)
      case None => if Lists(sections[0].codes, code) then Wrappers.Some(sections[0].continent) else Wrappers.None
  }

  /** `code` is one of `codes`, checked entry by entry. */
  predicate Lists(codes: seq<string>, code: string) {
    codes != [] && (codes[0] == code || Lists(codes[1..], code))
  }

  lemma {:induction false} ListsIsMembership(codes: seq<string>, code: string)
    ensures Lists(codes, code) <==> code in codes
  {
    if codes != [] {
      ListsIsMembership(codes[1..], code);
      assert codes == [codes[0]] + codes[1..];
    }
  }

  /** Looking a code up block by block agrees with the object literal. */
  lemma {:induction false} FindIsTableLookup(sections: seq<Section>, code: string)
    ensures Find(sections, code).Some? <==> code in TableOf(sections)
    ensures code in TableOf(sections) ==> Find(sections, code).value == TableOf(sections)[code]
  {
    if sections != [] {
      FindIsTableLookup(sections[1..], code);
      ListsIsMembership(sections[0].codes, code);
    }
  }

  /** `getContinent(code)`: `CONTINENT_MAP[code] || 'Unknown'`, always one of
      `CONTINENTS` or "Unknown" (its agreement with the table is
      `GetContinentIsTableValue`). */
  function GetContinent(code: string): (r: string)
    ensures r in AllContinents <==> r != Unknown
  {
    SectionsNameContinents();
    match Find(Sections, code)
    case Some(c) => if c != "" then c else Unknown
    case None => Unknown
  }

  /** `getContinent` gives the table's continent for a known code, otherwise
      "Unknown". */
  lemma GetContinentIsTableValue(code: string)
    ensures code in ContinentMap ==> GetContinent(code) == ContinentMap[code]
    ensures code !in ContinentMap ==> GetContinent(code) == Unknown
  {
    FindIsTableLookup(Sections, code);
    TableValuesAreContinents();
  }

  /** The codes of `keys` that `table` maps to `continent`, in order. */
  function KeysMappedTo(keys: seq<string>, table: map<string, string>, continent: string): (r: seq<string>)
    ensures forall c :: c in r <==> c in keys && c in table && table[c] == continent
    ensures Seqs.NoDuplicates(keys) ==> Seqs.NoDuplicates(r)
  {
    if keys == [] then []
    else
      var rest := KeysMappedTo(keys[1..], table, continent);
      assert Seqs.NoDuplicates(keys) ==> keys[0] !in keys[1..];
      if keys[0] in table && table[keys[0]] == continent then [keys[0]] + rest else rest
  }

  /** The filter works key by key: the codes kept from a concatenation are
      those kept from each part, in order. */
  lemma {:induction false} KeysMappedToAppend(a: seq<string>, b: seq<string>, table: map<string, string>, continent: string)
    ensures KeysMappedTo(a + b, table, continent) == KeysMappedTo(a, table, continent) + KeysMappedTo(b, table, continent)
  {
    if a == [] {
      assert a + b == b;
    } else {
      assert (a + b)[0] == a[0] && (a + b)[1..] == a[1..] + b;
      KeysMappedToAppend(a[1..], b, table, continent);
    }
  }

  /** A single key is kept exactly when the table maps it to the continent. */
  lemma KeysMappedToSingle(key: string, table: map<string, string>, continent: string)
    ensures KeysMappedTo([key], table, continent) == if key in table && table[key] == continent then [key] else []
  {
    assert [key][1..] == [];
  }

  /** `getCountriesInContinent(continent)`: the table's codes for that
      continent, in table order. A code is listed exactly when the table maps
      it to `continent`; "Unknown" and names that are not continents give []. */
  function GetCountriesInContinent(continent: string): (r: seq<string>)
    ensures forall c :: c in r <==> c in ContinentMap && ContinentMap[c] == continent
    ensures continent !in AllContinents ==> r == []
    ensures Seqs.NoDuplicates(r)
  {
    var r := KeysMappedTo(TableKeys(), ContinentMap, continent);
    assert continent !in AllContinents ==> r == [] by {
      if continent !in AllContinents && r != [] {
        assert r[0] in r;
        TableValuesAreContinents();
      }
    }
    r
  }

  /** Across the continents, the per-continent lists are pairwise disjoint and
      together hold exactly the table's codes. */
  lemma ContinentListsPartitionTable(code: string)
    ensures forall a, b | a in AllContinents && b in AllContinents
      && code in GetCountriesInContinent(a) && code in GetCountriesInContinent(b) :: a == b
    ensures code in ContinentMap <==>
      exists a | a in AllContinents :: code in GetCountriesInContinent(a)
  {
    if code in ContinentMap {
      TableValuesAreContinents();
      var a := ContinentMap[code];
      assert code in GetCountriesInContinent(a);
    }
  }

  /** `CONTINENT_COLORS`. */
  const ContinentColors: map<string, string> := map[
    "Africa" := "#f59e0b",
    "Asia" := "#ef4444",
    "Europe" := "#3b82f6",
    "North America" := "#22c55e",
    "South America" := "#a855f7",
    "Oceania" := "#06b6d4",
    "Antarctica" := "#94a3b8"
  ]

  /** `CONTINENT_EMOJIS`. */
  const ContinentEmojis: map<string, string> := map[
    "Africa" := "\U{1F30D}",
    "Asia" := "\U{1F30F}",
    "Europe" := "\U{1F3F0}",
    "North America" := "\U{1F5FD}",
    "South America" := "\U{1F334}",
    "Oceania" := "\U{1F3DD}\U{FE0F}",
    "Antarctica" := "\U{1F427}"
  ]

  /** Every continent has a colour and an emoji. */
  lemma EveryContinentHasColorAndEmoji()
    ensures forall c | c in AllContinents :: c in ContinentColors && c in ContinentEmojis
    ensures ContinentColors.Keys == ContinentEmojis.Keys == set c | c in AllContinents
  {
  }
}
