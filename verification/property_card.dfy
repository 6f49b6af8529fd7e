/** The listing card's derived values: the sale and rent badges, the title, the de-duplicated
    address line and the photo pagination dots. */
module PropertyCard {
  import opened Options
  import opened Js

  /** The sale badge: the sale flag, or a purpose of SALE or BOTH. */
  predicate IsSale(p: Value) {
    Truthy(Get(p, "is_available_for_sale")) || Get(p, "purpose") == Str("SALE") || Get(p, "purpose") == Str("BOTH")
  }

  /** The rent badge: the rent flag, or a purpose of RENT or BOTH. */
  predicate IsRent(p: Value) {
    Truthy(Get(p, "is_available_for_rent")) || Get(p, "purpose") == Str("RENT") || Get(p, "purpose") == Str("BOTH")
  }

  /** A listing for both sale and rent shows both badges, and one with neither flag shows at
      most the badge of its purpose. */
  lemma BadgesFollowPurpose(p: Value)
    ensures Get(p, "purpose") == Str("BOTH") ==> IsSale(p) && IsRent(p)
    ensures (!Truthy(Get(p, "is_available_for_sale")) && !Truthy(Get(p, "is_available_for_rent"))
             && Get(p, "purpose") != Str("BOTH")) ==> !(IsSale(p) && IsRent(p))
  {
  }

  const DefaultTitle: string := "Modern Living Space"

  /** The title: the listing's title, else its type, else the default; never empty. */
  function Title(p: Value): (t: Value)
    ensures Truthy(t)
    ensures Truthy(Get(p, "title")) ==> t == Get(p, "title")
    ensures !Truthy(Get(p, "title")) && Truthy(Get(p, "property_type")) ==> t == Get(p, "property_type")
    ensures !Truthy(Get(p, "title")) && !Truthy(Get(p, "property_type")) ==> t == Str(DefaultTitle)
  {
    Or(Or(Get(p, "title"), Get(p, "property_type")), Str(DefaultTitle))
  }

  // ---------------------------------------------------------------- the address line

  /** The address candidates, in order: city, district, location, area, province. The
      district is the district record's name, else the plain district field. Falsy entries are
      dropped. */
  function Candidates(p: Value): (c: seq<Value>)
    ensures |c| <= 5
    ensures forall i :: 0 <= i < |c| ==> Truthy(c[i])
  {
    var all := [Get(p, "city"), Or(Get(Get(p, "DistrictData"), "name"), Get(p, "district")),
                Get(p, "location"), Get(Get(p, "AreaData"), "name"), Get(Get(p, "ProvinceData"), "name")];
    TruthyOnly(all)
  }

  /** `.filter(Boolean)` */
  function TruthyOnly(xs: seq<Value>): (r: seq<Value>)
    ensures |r| <= |xs|
    ensures forall i :: 0 <= i < |r| ==> Truthy(r[i])
  {
    if xs == [] then []
    else (if Truthy(xs[0]) then [xs[0]] else []) + TruthyOnly(xs[1..])
  }

  /** The comparison key of a part: trimmed and lower-cased. */
  function Key(s: string): string {
    ToLower(Trim(s))
  }

  /** A trimmed part has the key of the part it came from. */
  lemma KeyOfTrimmed(s: string)
    ensures Key(Trim(s)) == Key(s)
  {
    TrimTwice(s);
  }

  // The de-duplication below is written for any comparison key `key` and any clean-up `norm`
  // of the kept parts; the card uses `Key` and `Trim`.

  /** Candidate `j` is the first with its key, and that key is not empty. */
  predicate FirstOfKey(c: seq<string>, j: nat, key: string -> string)
    requires j < |c|
  {
    key(c[j]) != "" && forall i :: 0 <= i < j ==> key(c[i]) != key(c[j])
  }

  /** The reference definition of the de-duplicated parts: the cleaned-up candidates that are
      the first of their non-empty key, in candidate order. */
  function UniqueBy(c: seq<string>, key: string -> string, norm: string -> string): seq<string>
    decreases |c|
  {
    if c == [] then []
    else UniqueBy(c[..|c| - 1], key, norm) + (if FirstOfKey(c, |c| - 1, key) then [norm(c[|c| - 1])] else [])
  }

  /** The non-empty keys among the candidates. */
  function SeenKeys(c: seq<string>, key: string -> string): set<string>
    decreases |c|
  {
    if c == [] then {}
    else SeenKeys(c[..|c| - 1], key) + (if key(c[|c| - 1]) != "" then {key(c[|c| - 1])} else {})
  }

  /** A key is seen exactly when some candidate has it and it is not empty. */
  lemma {:induction false} SeenKeysMeaning(c: seq<string>, key: string -> string, k: string)
    ensures k in SeenKeys(c, key) <==> k != "" && exists j :: 0 <= j < |c| && key(c[j]) == k
    decreases |c|
  {
    if c != [] {
      var init := c[..|c| - 1];
      SeenKeysMeaning(init, key, k);
      if k in SeenKeys(init, key) {
        var j :| 0 <= j < |init| && key(init[j]) == k;
        assert key(c[j]) == k;
      }
      if k != "" && k !in SeenKeys(c, key) {
        forall j | 0 <= j < |c| ensures key(c[j]) != k {
          if j < |c| - 1 {
            assert c[j] == init[j];
          }
        }
      }
    }
  }

  /** The keys of the parts. */
  function PartKeys(parts: seq<string>, key: string -> string): set<string>
    decreases |parts|
  {
    if parts == [] then {} else PartKeys(parts[..|parts| - 1], key) + {key(parts[|parts| - 1])}
  }

  /** A key belongs to the parts exactly when one of them has it. */
  lemma {:induction false} PartKeysMeaning(parts: seq<string>, key: string -> string, k: string)
    ensures k in PartKeys(parts, key) <==> exists a :: 0 <= a < |parts| && key(parts[a]) == k
    decreases |parts|
  {
    if parts != [] {
      var init := parts[..|parts| - 1];
      PartKeysMeaning(init, key, k);
      if k in PartKeys(init, key) {
        var a :| 0 <= a < |init| && key(init[a]) == k;
        assert key(parts[a]) == k;
      }
      if k !in PartKeys(parts, key) {
        forall a | 0 <= a < |parts| ensures key(parts[a]) != k {
          if a < |parts| - 1 {
            assert parts[a] == init[a];
          }
        }
      }
    }
  }

  /** The last candidate is the first of its key exactly when its key is new and not empty. */
  lemma FirstIffUnseen(c: seq<string>, key: string -> string)
    requires c != []
    ensures FirstOfKey(c, |c| - 1, key) <==> key(c[|c| - 1]) != "" && key(c[|c| - 1]) !in SeenKeys(c[..|c| - 1], key)
  {
    var init := c[..|c| - 1];
    var k := key(c[|c| - 1]);
    SeenKeysMeaning(init, key, k);
    if k != "" && k in SeenKeys(init, key) {
      var j :| 0 <= j < |init| && key(init[j]) == k;
      assert key(c[j]) == k;
    }
    if k != "" && !FirstOfKey(c, |c| - 1, key) {
      var j :| 0 <= j < |c| - 1 && key(c[j]) == k;
      assert key(init[j]) == k;
    }
  }

  /** Extending the prefix by candidate `i`: it is kept exactly when its key is new and not
      empty, and its key joins the seen keys when not empty. */
  lemma PrefixStep(c: seq<string>, i: nat, key: string -> string, norm: string -> string)
    requires i < |c|
    ensures var k := key(c[i]);
      UniqueBy(c[..i + 1], key, norm) == UniqueBy(c[..i], key, norm) + (if k != "" && k !in SeenKeys(c[..i], key) then [norm(c[i])] else [])
      && SeenKeys(c[..i + 1], key) == SeenKeys(c[..i], key) + (if k != "" then {k} else {})
  {
    var next := c[..i + 1];
    assert next[..i] == c[..i] && next[i] == c[i];
    FirstIffUnseen(next, key);
  }

  /** The de-duplication as the card runs it: one pass over the candidates, remembering the
      keys already seen, keeping the cleaned-up first part of each new non-empty key. */
  method DedupBy(c: seq<string>, key: string -> string, norm: string -> string) returns (parts: seq<string>)
    ensures parts == UniqueBy(c, key, norm)
  {
    parts := [];
    var seen: set<string> := {};
    var i := 0;
    while i < |c|
      invariant 0 <= i <= |c|
      invariant parts == UniqueBy(c[..i], key, norm)
      invariant seen == SeenKeys(c[..i], key)
    {
      var k := key(c[i]);
      PrefixStep(c, i, key, norm);
      if k != "" && k !in seen {
        seen := seen + {k};
        parts := parts + [norm(c[i])];
      }
      i := i + 1;
    }
    assert c[..|c|] == c;
  }

  /** Every kept part has a non-empty key, when cleaning up keeps the key. */
  lemma {:induction false} UniqueByNonEmpty(c: seq<string>, key: string -> string, norm: string -> string)
    requires forall s :: key(norm(s)) == key(s)
    ensures forall a :: 0 <= a < |UniqueBy(c, key, norm)| ==> key(UniqueBy(c, key, norm)[a]) != ""
    decreases |c|
  {
    if c != [] {
      var init := c[..|c| - 1];
      UniqueByNonEmpty(init, key, norm);
      var u := UniqueBy(init, key, norm);
      if FirstOfKey(c, |c| - 1, key) {
        assert key(norm(c[|c| - 1])) == key(c[|c| - 1]);
        assert UniqueBy(c, key, norm) == u + [norm(c[|c| - 1])];
      }
    }
  }

  /** The keys of the kept parts are exactly the candidates' non-empty keys, when cleaning up
      keeps the key: nothing is lost. */
  lemma {:induction false} UniqueByKeys(c: seq<string>, key: string -> string, norm: string -> string)
    requires forall s :: key(norm(s)) == key(s)
    ensures PartKeys(UniqueBy(c, key, norm), key) == SeenKeys(c, key)
    decreases |c|
  {
    if c != [] {
      var init := c[..|c| - 1];
      var last := c[|c| - 1];
      UniqueByKeys(init, key, norm);
      FirstIffUnseen(c, key);
      var u := UniqueBy(init, key, norm);
      if FirstOfKey(c, |c| - 1, key) {
        var v := u + [norm(last)];
        assert UniqueBy(c, key, norm) == v;
        assert v[..|v| - 1] == u;
        assert key(norm(last)) == key(last);
      } else {
        assert UniqueBy(c, key, norm) == u;
      }
    }
  }

  /** The kept parts have pairwise distinct keys, when cleaning up keeps the key: nothing is
      repeated. */
  lemma {:induction false} UniqueByDistinct(c: seq<string>, key: string -> string, norm: string -> string)
    requires forall s :: key(norm(s)) == key(s)
    ensures forall a, b :: 0 <= a < b < |UniqueBy(c, key, norm)| ==>
      key(UniqueBy(c, key, norm)[a]) != key(UniqueBy(c, key, norm)[b])
    decreases |c|
  {
    if c != [] {
      var init := c[..|c| - 1];
      var last := c[|c| - 1];
      UniqueByDistinct(init, key, norm);
      var u := UniqueBy(init, key, norm);
      if FirstOfKey(c, |c| - 1, key) {
        FirstIffUnseen(c, key);
        UniqueByKeys(init, key, norm);
        var v := u + [norm(last)];
        assert UniqueBy(c, key, norm) == v;
        assert key(v[|u|]) == key(last);
        forall a | 0 <= a < |u| ensures key(u[a]) != key(last) {
          PartKeysMeaning(u, key, key(last));
        }
      }
    }
  }

  /** The card's address parts: pairwise distinct after trimming and lower-casing, none empty,
      every non-empty candidate represented. */
  lemma AddressPartsDistinct(c: seq<string>)
    ensures forall a, b :: 0 <= a < b < |UniqueBy(c, Key, Trim)| ==>
      Key(UniqueBy(c, Key, Trim)[a]) != Key(UniqueBy(c, Key, Trim)[b])
    ensures forall a :: 0 <= a < |UniqueBy(c, Key, Trim)| ==> Trim(UniqueBy(c, Key, Trim)[a]) != ""
    ensures PartKeys(UniqueBy(c, Key, Trim), Key) == SeenKeys(c, Key)
  {
    forall s ensures Key(Trim(s)) == Key(s) {
      KeyOfTrimmed(s);
    }
    UniqueByNonEmpty(c, Key, Trim);
    UniqueByKeys(c, Key, Trim);
    UniqueByDistinct(c, Key, Trim);
  }

  /** The address line: the parts joined with `, `. None when a candidate is not text, on
      which `trim` throws. */
  method FullAddress(p: Value) returns (r: Option<string>)
    ensures r.None? <==> exists i :: 0 <= i < |Candidates(p)| && !Candidates(p)[i].Str?
    ensures r.Some? ==> exists c ::
      (|c| == |Candidates(p)| && (forall i :: 0 <= i < |c| ==> Candidates(p)[i] == Str(c[i]))
       && r.value == JoinWith(UniqueBy(c, Key, Trim), ", "))
  {
    r := JoinCandidates(Candidates(p));
  }

  /** The address line of a list of candidates. */
  method JoinCandidates(cands: seq<Value>) returns (r: Option<string>)
    ensures r.None? <==> exists i :: 0 <= i < |cands| && !cands[i].Str?
    ensures r.Some? ==> exists c ::
      (|c| == |cands| && (forall i :: 0 <= i < |c| ==> cands[i] == Str(c[i]))
       && r.value == JoinWith(UniqueBy(c, Key, Trim), ", "))
  {
    if exists i :: 0 <= i < |cands| && !cands[i].Str? {
      return None;
    }
    var c := seq(|cands|, i requires 0 <= i < |cands| => cands[i].s);
    assert forall i :: 0 <= i < |c| ==> cands[i] == Str(c[i]);
    var parts := DedupBy(c, Key, Trim);
    r := Some(JoinWith(parts, ", "));
  }

  // ---------------------------------------------------------------- pagination dots

  const MaxDots: nat := 8

  /** The dots under the photos, each marked when it is the active one: none for at most one
      photo, otherwise one per photo up to eight. */
  function Dots(length: int, active: int): (dots: seq<bool>)
    ensures length <= 1 ==> dots == []
    ensures length > 1 ==> 2 <= |dots| <= MaxDots && |dots| <= length
    ensures length > 1 && length <= MaxDots ==> |dots| == length
    ensures forall i :: 0 <= i < |dots| ==> (dots[i] <==> i == active)
  {
    if length <= 1 then []
    else
      var n := if length < MaxDots then length else MaxDots;
      seq(n, i requires 0 <= i < n => i == active)
  }

  /** At most one dot is marked, and exactly one when the active photo is among the first
      eight. */
  lemma OneDotMarked(length: int, active: int)
    ensures forall i, j :: 0 <= i < j < |Dots(length, active)| ==> !(Dots(length, active)[i] && Dots(length, active)[j])
    ensures length > 1 && 0 <= active < length && active < MaxDots ==> Dots(length, active)[active]
  {
  }
}
