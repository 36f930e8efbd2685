/**
 * The pure half of the store: how a supplier's phone number becomes the
 * directory key, how the vehicle tags of a contact accumulate, and how a
 * saved offer is folded into the supplier's contact record.
 */
module Merge {
  import opened Types

  // ---------------------------------------------------------------------
  // Phone normalisation: `phone.replace(/\D/g, '')`
  // ---------------------------------------------------------------------

  /** `\d` without the Unicode flag: the ASCII digits only. */
  predicate IsDigit(c: char) {
    '0' <= c <= '9'
  }

  predicate AllDigits(s: string) {
    forall i :: 0 <= i < |s| ==> IsDigit(s[i])
  }

  /** Every non-digit character removed; the digits kept, in order. */
  function NormalizePhone(s: string): (r: string)
    ensures AllDigits(r)
    ensures |r| <= |s|
  {
    if s == [] then [] else (if IsDigit(s[0]) then [s[0]] else []) + NormalizePhone(s[1..])
  }

  /** Each digit occurs in the result as often as in the input, and nothing else occurs. */
  lemma {:induction false} NormalizeKeepsDigits(s: string)
    ensures forall c :: IsDigit(c) ==> multiset(NormalizePhone(s))[c] == multiset(s)[c]
    ensures forall c :: !IsDigit(c) ==> multiset(NormalizePhone(s))[c] == 0
  {
    if s != [] {
      assert s == [s[0]] + s[1..];
      NormalizeKeepsDigits(s[1..]);
    }
  }

  /** Normalisation distributes over concatenation, so it keeps the digits in their order. */
  lemma {:induction false} NormalizeConcat(a: string, b: string)
    ensures NormalizePhone(a + b) == NormalizePhone(a) + NormalizePhone(b)
  {
    if a == [] {
      assert a + b == b;
    } else {
      var head := if IsDigit(a[0]) then [a[0]] else [];
      assert (a + b)[0] == a[0];
      assert (a + b)[1..] == a[1..] + b;
      assert NormalizePhone(a + b) == head + NormalizePhone(a[1..] + b);
      NormalizeConcat(a[1..], b);
      assert head + (NormalizePhone(a[1..]) + NormalizePhone(b)) == (head + NormalizePhone(a[1..])) + NormalizePhone(b);
    }
  }

  /** A string of digits only is already normal. */
  lemma {:induction false} NormalizeDigits(s: string)
    requires AllDigits(s)
    ensures NormalizePhone(s) == s
  {
    if s != [] {
      NormalizeDigits(s[1..]);
    }
  }

  /** Normalising twice is normalising once. */
  lemma NormalizeIdempotent(s: string)
    ensures NormalizePhone(NormalizePhone(s)) == NormalizePhone(s)
  {
    NormalizeDigits(NormalizePhone(s));
  }

  // ---------------------------------------------------------------------
  // Upper-casing: `String.prototype.toUpperCase`, on ASCII letters
  // ---------------------------------------------------------------------

  function UpperChar(c: char): char {
    if 'a' <= c <= 'z' then (c as int - 32) as char else c
  }

  function Upper(s: string): string {
    seq(|s|, i requires 0 <= i < |s| => UpperChar(s[i]))
  }

  /** Upper-casing leaves no ASCII lower-case letter, changes nothing else, and a second pass changes nothing. */
  lemma UpperIdempotent(s: string)
    ensures |Upper(s)| == |s|
    ensures forall i :: 0 <= i < |s| ==> !('a' <= Upper(s)[i] <= 'z')
    ensures forall i :: 0 <= i < |s| && !('a' <= s[i] <= 'z') ==> Upper(s)[i] == s[i]
    ensures Upper(Upper(s)) == Upper(s)
  {
  }

  // ---------------------------------------------------------------------
  // Tag union: `Array.from(new Set([...prior, tag]))`
  // ---------------------------------------------------------------------

  predicate NoDup(s: seq<string>) {
    forall i, j :: 0 <= i < j < |s| ==> s[i] != s[j]
  }

  /**
   * The list a JavaScript `Set` built from `s` enumerates: each value once,
   * at the position of its first occurrence.
   */
  function Dedup(s: seq<string>): (r: seq<string>)
    ensures NoDup(r)
    ensures forall x :: x in r <==> x in s
    ensures |r| <= |s|
  {
    if |s| == 0 then []
    else
      var front := s[..|s| - 1];
      assert s == front + [s[|s| - 1]];
      var d := Dedup(front);
      if s[|s| - 1] in d then d else d + [s[|s| - 1]]
  }

  /**
   * Extending a list only appends to its enumeration: the values already
   * seen keep their first-occurrence positions, so `Dedup` lists in the
   * order of first occurrence.
   */
  lemma {:induction false} DedupPrefix(a: seq<string>, b: seq<string>)
    ensures |Dedup(a)| <= |Dedup(a + b)|
    ensures Dedup(a + b)[..|Dedup(a)|] == Dedup(a)
    decreases |b|
  {
    if b == [] {
      assert a + b == a;
    } else {
      var front := b[..|b| - 1];
      DedupPrefix(a, front);
      assert (a + b)[..|a + b| - 1] == a + front;
    }
  }

  /** A list without repeats enumerates as itself. */
  lemma {:induction false} DedupOfNoDup(s: seq<string>)
    ensures NoDup(s) ==> Dedup(s) == s
  {
    if |s| > 0 && NoDup(s) {
      var front := s[..|s| - 1];
      assert NoDup(front);
      DedupOfNoDup(front);
      assert s[|s| - 1] !in front;
      assert s == front + [s[|s| - 1]];
    }
  }

  /** In a list without repeats, a member occurs exactly once. */
  lemma {:induction false} NoDupOccursOnce(s: seq<string>, x: string)
    requires NoDup(s) && x in s
    ensures multiset(s)[x] == 1
  {
    assert s == [s[0]] + s[1..];
    if s[0] == x {
      assert x !in s[1..];
    } else {
      NoDupOccursOnce(s[1..], x);
    }
  }

  /** The tag list after one more quote: the prior tags, de-duplicated, and the new tag at the end if it is new. */
  function MergeTags(prior: seq<string>, tag: string): (r: seq<string>)
    ensures NoDup(r)
    ensures forall x :: x in r <==> x in prior || x == tag
    ensures r == Dedup(prior) + (if tag in prior then [] else [tag])
    ensures NoDup(prior) ==> r == prior + (if tag in prior then [] else [tag])
  {
    DedupOfNoDup(prior);
    var all := prior + [tag];
    assert all[..|all| - 1] == prior;
    Dedup(all)
  }

  /** Merging the same tag again changes nothing. */
  lemma MergeTagsIdempotent(prior: seq<string>, tag: string)
    ensures MergeTags(MergeTags(prior, tag), tag) == MergeTags(prior, tag)
  {
  }

  // ---------------------------------------------------------------------
  // The contact record built by `saveOffer`
  // ---------------------------------------------------------------------

  /** JavaScript truthiness of an optional string: absent and "" are falsy. */
  predicate TextTruthy(v: Option<string>) {
    v.Some? && v.value != ""
  }

  /** JavaScript truthiness of an optional number: absent and 0 are falsy. */
  predicate NumberTruthy(v: Option<real>) {
    v.Some? && v.value != 0.0
  }

  /** `existing?.makes || []`, and the same for models and years. */
  function PriorMakes(existing: Option<Contact>): seq<string> {
    if existing.Some? then existing.value.makes else []
  }

  function PriorModels(existing: Option<Contact>): seq<string> {
    if existing.Some? then existing.value.models else []
  }

  function PriorYears(existing: Option<Contact>): seq<string> {
    if existing.Some? then existing.value.years else []
  }

  /**
   * The contact `saveOffer` writes under the offer's normalised phone,
   * given the contact already stored there (if any), the car quoted for,
   * the current time and a fresh UUID.
   */
  function MergeContact(existing: Option<Contact>, offer: Offer, car: Car, now: int, freshId: string): (c: Contact)
    // identity: the stored id survives; a missing or empty one is replaced
    ensures existing.Some? && existing.value.id != "" ==> c.id == existing.value.id
    ensures existing.None? || existing.value.id == "" ==> c.id == freshId
    // last write wins for the name and the timestamp; the phone is the key
    ensures c.name == offer.shopName
    ensures c.phone == NormalizePhone(offer.phone) && AllDigits(c.phone)
    ensures c.lastUsedAt == now
    // a truthy location in the offer replaces the known one, otherwise the known one stays
    ensures TextTruthy(offer.locationText) ==> c.lastLocationText == offer.locationText
    ensures !TextTruthy(offer.locationText) ==>
      c.lastLocationText == (if existing.Some? then existing.value.lastLocationText else None)
    ensures NumberTruthy(offer.lat) ==> c.lastLat == offer.lat
    ensures !NumberTruthy(offer.lat) ==> c.lastLat == (if existing.Some? then existing.value.lastLat else None)
    ensures NumberTruthy(offer.lng) ==> c.lastLng == offer.lng
    ensures !NumberTruthy(offer.lng) ==> c.lastLng == (if existing.Some? then existing.value.lastLng else None)
    // the gallery has no writer here: it is carried over from the stored contact
    ensures c.media == (if existing.Some? then existing.value.media else None)
  {
    var makes := MergeTags(PriorMakes(existing), Upper(car.make));
    var models := MergeTags(PriorModels(existing), Upper(car.model));
    var years := MergeTags(PriorYears(existing), Upper(car.year));
    Contact(
      id := if existing.Some? && existing.value.id != "" then existing.value.id else freshId,
      name := offer.shopName,
      phone := NormalizePhone(offer.phone),
      lastLocationText :=
        if TextTruthy(offer.locationText) then offer.locationText
        else if existing.Some? then existing.value.lastLocationText else None,
      lastLat :=
        if NumberTruthy(offer.lat) then offer.lat
        else if existing.Some? then existing.value.lastLat else None,
      lastLng :=
        if NumberTruthy(offer.lng) then offer.lng
        else if existing.Some? then existing.value.lastLng else None,
      lastUsedAt := now,
      makes := makes,
      models := models,
      years := years,
      media := if existing.Some? then existing.value.media else None)
  }

  /**
   * The tag lists of a merged contact are repeat-free unions of the stored
   * contact's tags and the car's upper-cased make, model and year, and a
   * repeat-free stored list survives as their prefix, in its order.
   */
  lemma MergedTags(existing: Option<Contact>, offer: Offer, car: Car, now: int, freshId: string)
    ensures var c := MergeContact(existing, offer, car, now, freshId);
            && NoDup(c.makes) && NoDup(c.models) && NoDup(c.years)
            && (forall x :: x in c.makes <==> x in PriorMakes(existing) || x == Upper(car.make))
            && (forall x :: x in c.models <==> x in PriorModels(existing) || x == Upper(car.model))
            && (forall x :: x in c.years <==> x in PriorYears(existing) || x == Upper(car.year))
            && (NoDup(PriorMakes(existing)) ==> c.makes[..|PriorMakes(existing)|] == PriorMakes(existing))
            && (NoDup(PriorModels(existing)) ==> c.models[..|PriorModels(existing)|] == PriorModels(existing))
            && (NoDup(PriorYears(existing)) ==> c.years[..|PriorYears(existing)|] == PriorYears(existing))
  {
  }

  /**
   * Saving a second offer for the same car to the same supplier leaves the
   * tag lists, the gallery and (given a non-empty UUID the first time) the
   * identifier as the first save left them; name and timestamp follow the
   * second offer.
   */
  lemma RepeatedSaveKeepsTags(existing: Option<Contact>, first: Offer, second: Offer, car: Car,
                              t1: int, t2: int, id1: string, id2: string)
    ensures var c1 := MergeContact(existing, first, car, t1, id1);
            var c2 := MergeContact(Some(c1), second, car, t2, id2);
            && c2.makes == c1.makes && c2.models == c1.models && c2.years == c1.years
            && c2.media == c1.media
            && (id1 != "" ==> c2.id == c1.id)
            && c2.name == second.shopName && c2.lastUsedAt == t2
  {
    MergeTagsIdempotent(PriorMakes(existing), Upper(car.make));
    MergeTagsIdempotent(PriorModels(existing), Upper(car.model));
    MergeTagsIdempotent(PriorYears(existing), Upper(car.year));
  }

  /**
   * However many times the same car has been merged in, its make, model and
   * year each occur exactly once in the merged lists.
   */
  lemma SavedTagsOccurOnce(existing: Option<Contact>, offer: Offer, car: Car, now: int, freshId: string)
    ensures var c := MergeContact(existing, offer, car, now, freshId);
            && multiset(c.makes)[Upper(car.make)] == 1
            && multiset(c.models)[Upper(car.model)] == 1
            && multiset(c.years)[Upper(car.year)] == 1
  {
    var c := MergeContact(existing, offer, car, now, freshId);
    NoDupOccursOnce(c.makes, Upper(car.make));
    NoDupOccursOnce(c.models, Upper(car.model));
    NoDupOccursOnce(c.years, Upper(car.year));
  }

  /**
   * Two quotes from one supplier, first for a Camry and then for a Corolla:
   * one contact under the digits of the phone, renamed by the second quote,
   * with one make and both models and years in the order they were quoted.
   */
  lemma TwoQuotesOneSupplier(first: Offer, second: Offer, now1: int, now2: int, id1: string, id2: string)
    requires first.phone == "+971501234567" && first.shopName == "Al Futtaim"
    requires second.phone == first.phone && second.shopName == "Al Futtaim Spares"
    ensures var camry := Car("c1", "TOYOTA", "CAMRY", "2019", None, None, 0);
            var corolla := Car("c2", "TOYOTA", "COROLLA", "2020", None, None, 0);
            var c1 := MergeContact(None, first, camry, now1, id1);
            var c2 := MergeContact(Some(c1), second, corolla, now2, id2);
            && c1.phone == "971501234567"
            && c1.makes == ["TOYOTA"] && c1.models == ["CAMRY"] && c1.years == ["2019"]
            && c2.phone == c1.phone && c2.name == "Al Futtaim Spares"
            && c2.makes == ["TOYOTA"] && c2.models == ["CAMRY", "COROLLA"] && c2.years == ["2019", "2020"]
  {
    var camry := Car("c1", "TOYOTA", "CAMRY", "2019", None, None, 0);
    var corolla := Car("c2", "TOYOTA", "COROLLA", "2020", None, None, 0);
    var c1 := MergeContact(None, first, camry, now1, id1);
    FirstQuote(first, camry, now1, id1, c1);
    SecondQuote(c1, second, corolla, now2, id2, MergeContact(Some(c1), second, corolla, now2, id2));
  }

  /** The first of the two quotes: a new contact with one tag in each list. */
  lemma FirstQuote(first: Offer, camry: Car, now1: int, id1: string, c1: Contact)
    requires first.phone == "+971501234567"
    requires camry.make == "TOYOTA" && camry.model == "CAMRY" && camry.year == "2019"
    requires c1 == MergeContact(None, first, camry, now1, id1)
    ensures c1.phone == "971501234567"
    ensures c1.makes == ["TOYOTA"] && c1.models == ["CAMRY"] && c1.years == ["2019"]
  {
    PhoneExample();
    UpperExamples();
    FirstTag("TOYOTA");
    FirstTag("CAMRY");
    FirstTag("2019");
  }

  /** The second of the two quotes, merged into the contact the first one made. */
  lemma SecondQuote(c1: Contact, second: Offer, corolla: Car, now2: int, id2: string, c2: Contact)
    requires c1.phone == "971501234567" && second.phone == "+971501234567"
    requires c1.makes == ["TOYOTA"] && c1.models == ["CAMRY"] && c1.years == ["2019"]
    requires corolla.make == "TOYOTA" && corolla.model == "COROLLA" && corolla.year == "2020"
    requires c2 == MergeContact(Some(c1), second, corolla, now2, id2)
    ensures c2.phone == c1.phone && c2.name == second.shopName
    ensures c2.makes == ["TOYOTA"] && c2.models == ["CAMRY", "COROLLA"] && c2.years == ["2019", "2020"]
  {
    PhoneExample();
    UpperExamples();
    SameTag("TOYOTA");
    OtherTag("CAMRY", "COROLLA");
    OtherTag("2019", "2020");
  }

  /** The first quote for a car seeds each tag list with that car's tag. */
  lemma FirstTag(tag: string)
    ensures MergeTags([], tag) == [tag]
  {
  }

  /** A tag merged into the list it alone makes up leaves the list as it is. */
  lemma SameTag(tag: string)
    ensures MergeTags([tag], tag) == [tag]
  {
    assert NoDup([tag]);
  }

  /** A second, different tag goes after the first. */
  lemma OtherTag(first: string, tag: string)
    requires first != tag
    ensures MergeTags([first], tag) == [first, tag]
  {
    assert NoDup([first]);
  }

  /** A Dubai mobile number written with its international prefix. */
  lemma PhoneExample()
    ensures NormalizePhone("+971501234567") == "971501234567"
  {
    NormalizeConcat("+97150", "1234567");
    PhoneSplit();
    PhoneHead();
    PhoneTail();
  }

  lemma PhoneSplit()
    ensures "+97150" + "1234567" == "+971501234567"
  {
  }

  lemma PhoneHead()
    ensures NormalizePhone("+97150") == "97150"
  {
  }

  lemma PhoneTail()
    ensures NormalizePhone("1234567") == "1234567"
  {
  }

  /** The tags of the two quoted cars are already upper case, and pairwise distinct. */
  lemma UpperExamples()
    ensures Upper("TOYOTA") == "TOYOTA" && Upper("CAMRY") == "CAMRY" && Upper("COROLLA") == "COROLLA"
    ensures Upper("2019") == "2019" && Upper("2020") == "2020"
    ensures "COROLLA" != "CAMRY" && "2020" != "2019"
  {
    assert "2020"[2] != "2019"[2];
  }
}
