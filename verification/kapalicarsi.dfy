/** `providers/metals_kapalicarsi_apiluna.py`: gold and silver in TRY per
    gram from the Kapalıçarşı feed. The feed is the sequence of values of
    the top-level JSON object, in order; a failed request, an undecodable
    body or a body that is not an object is the `Failure` it arrives as. */
module Kapalicarsi {
  import opened Wrappers
  import opened Text
  import opened Errors
  import opened Payload
  import opened Assets

  const NAME: string := "kapalicarsi_apiluna"

  // ------------------------------------------------------------- _to_dec

  /** The separator clean-up of `_to_dec`: with both ',' and '.', the '.' are
      thousands separators and go, and ',' becomes the decimal point; with
      only ',', it becomes the decimal point; otherwise nothing changes. */
  function NormalizeSeparators(s: string): (r: string)
    ensures ',' !in r
    ensures ',' !in s ==> r == s
    ensures ',' in s && '.' in s ==> '.' !in Remove(s, '.') && r == Replace(Remove(s, '.'), ',', '.')
    ensures ',' in s && '.' !in s ==> |r| == |s| && forall i :: 0 <= i < |s| ==> (s[i] == ',' <==> r[i] == '.')
  {
    if ',' in s && '.' in s then
      ReplaceAt(Remove(s, '.'), ',', '.');
      Replace(Remove(s, '.'), ',', '.')
    else if ',' in s then
      ReplaceAt(s, ',', '.');
      Replace(s, ',', '.')
    else s
  }

  /** `_to_dec` applied to a text: strip, fix separators, `Decimal(...)`. */
  function ToDecText(x: string): (r: Result<real, Error>)
    ensures r.Success? <==> ParseDecimal(NormalizeSeparators(Strip(x))).Some?
    ensures r.Success? ==> Some(r.value) == ParseDecimal(NormalizeSeparators(Strip(x)))
    ensures r.Failure? ==> r.error.InvalidDecimal?
  {
    var s := NormalizeSeparators(Strip(x));
    match ParseDecimal(s)
    case Some(v) => Success(v)
    case None => Failure(InvalidDecimal(s))
  }

  /** `_to_dec(x)`, which starts from `str(x)`. */
  function ToDec(x: Json): (r: Result<real, Error>)
    ensures x.Str? ==> r == ToDecText(x.s)
    ensures x.Num? ==> r == ToDecText(x.repr)
  {
    ToDecText(PyStr(x))
  }

  // -------------------------------------------------------- _read_bid_ask

  function Bid(it: map<string, Json>): Json {
    Or([Get(it, "alis"), Get(it, "buy"), Get(it, "bid")])
  }

  function Ask(it: map<string, Json>): Json {
    Or([Get(it, "satis"), Get(it, "sell"), Get(it, "ask")])
  }

  function Last(it: map<string, Json>): Json {
    Or([Get(it, "son"), Get(it, "last"), Get(it, "price")])
  }

  /** The choice `_read_bid_ask` makes between the bid, ask and last
      values it looked up: one side stands in for a missing other, and the
      last price serves for both only when neither side is there. */
  function Sides(bid: Json, ask: Json, last: Json): (r: Result<(real, real), Error>)
    ensures r == Failure(NoPriceFields) <==> bid == Null && ask == Null && last == Null
    ensures bid == Null && ask == Null && last != Null ==>
      (r.Success? <==> ToDec(last).Success?) && (r.Success? ==> r.value == (ToDec(last).value, ToDec(last).value))
    ensures bid != Null && ask == Null ==>
      (r.Success? <==> ToDec(bid).Success?) && (r.Success? ==> r.value == (ToDec(bid).value, ToDec(bid).value))
    ensures bid == Null && ask != Null ==>
      (r.Success? <==> ToDec(ask).Success?) && (r.Success? ==> r.value == (ToDec(ask).value, ToDec(ask).value))
    ensures bid != Null && ask != Null ==>
      (r.Success? <==> ToDec(bid).Success? && ToDec(ask).Success?)
      && (r.Success? ==> r.value == (ToDec(bid).value, ToDec(ask).value))
  {
    if bid == Null && ask == Null && last == Null then
      Failure(NoPriceFields)
    else if last != Null && bid == Null && ask == Null then
      var v :- ToDec(last);
      Success((v, v))
    else
      var bid' := if bid == Null then ask else bid;
      var ask' := if ask == Null then bid' else ask;
      var b :- ToDec(bid');
      var a :- ToDec(ask');
      Success((b, a))
  }

  /** `_read_bid_ask(it)`. */
  function ReadBidAsk(it: map<string, Json>): (r: Result<(real, real), Error>)
    ensures r == Failure(NoPriceFields) <==> Bid(it) == Null && Ask(it) == Null && Last(it) == Null
  {
    Sides(Bid(it), Ask(it), Last(it))
  }

  /** Whenever a bid or an ask is there, the last price plays no part. */
  lemma LastIgnoredWhenQuoted(bid: Json, ask: Json, last: Json, last': Json)
    requires bid != Null || ask != Null
    ensures Sides(bid, ask, last) == Sides(bid, ask, last')
  {
  }

  // --------------------------------------------------------- _fetch_items

  /** The list-valued entries of the top-level object, concatenated in
      order; entries of any other kind are skipped. */
  function FetchItems(values: seq<Json>): (r: seq<Json>)
    ensures forall j :: j in r ==> exists v :: v in values && v.Arr? && j in v.elems
    ensures |r| <= ListLengths(values)
  {
    if |values| == 0 then []
    else
      var init := FetchItems(values[..|values| - 1]);
      var v := values[|values| - 1];
      assert forall w :: w in values[..|values| - 1] ==> w in values;
      if v.Arr? then init + v.elems else init
  }

  /** The total length of the list-valued entries. */
  function ListLengths(values: seq<Json>): nat {
    if |values| == 0 then 0
    else ListLengths(values[..|values| - 1]) + (if values[|values| - 1].Arr? then |values[|values| - 1].elems| else 0)
  }

  /** Flattening distributes over concatenation of the object's entries. */
  lemma {:induction false} FetchItemsAppend(a: seq<Json>, b: seq<Json>)
    ensures FetchItems(a + b) == FetchItems(a) + FetchItems(b)
  {
    if |b| == 0 {
      assert a + b == a;
    } else {
      var b' := b[..|b| - 1];
      assert (a + b)[..|a + b| - 1] == a + b';
      assert (a + b)[|a + b| - 1] == b[|b| - 1];
      FetchItemsAppend(a, b');
    }
  }

  /** Every element of every list-valued entry is an item, in order: the
      items are exactly the lists' elements, nothing dropped. */
  lemma {:induction false} FetchItemsLength(values: seq<Json>)
    ensures |FetchItems(values)| == ListLengths(values)
  {
    if |values| > 0 {
      FetchItemsLength(values[..|values| - 1]);
    }
  }

  // ---------------------------------------------------------------- _find

  /** `str(it.get("name") or it.get("adi") or it.get("kod") or "").lower()`. */
  function ItemName(it: map<string, Json>): string {
    Lower(PyStr(Or([Get(it, "name"), Get(it, "adi"), Get(it, "kod"), Str("")])))
  }

  predicate Matches(it: map<string, Json>, keywords: seq<string>) {
    exists i :: 0 <= i < |keywords| && Contains(ItemName(it), keywords[i])
  }

  /** `_find(items, keywords)`: the first item whose name contains a
      keyword. An item that is not an object fails on `.get`. */
  function Find(items: seq<Json>, keywords: seq<string>): (r: Result<Option<map<string, Json>>, Error>)
    ensures r.Failure? ==> r.error == Malformed
    ensures r.Success? && r.value.Some? ==> Matches(r.value.value, keywords)
  {
    if |items| == 0 then Success(None)
    else match items[0]
      case Obj(f) =>
        if Matches(f, keywords) then Success(Some(f))
        else
          Find(items[1..], keywords)
      case _ => Failure(Malformed)
  }

  /** Every item before position `i` is an object that does not match. */
  predicate NoMatchBefore(items: seq<Json>, keywords: seq<string>, i: int)
    requires 0 <= i <= |items|
  {
    forall k :: 0 <= k < i ==> items[k].Obj? && !Matches(items[k].fields, keywords)
  }

  /** `_find` returns the item at `i` exactly when it is an object that
      matches and everything before it is an object that does not. */
  lemma FindFirst(items: seq<Json>, keywords: seq<string>, i: int)
    requires 0 <= i < |items|
    requires items[i].Obj? && Matches(items[i].fields, keywords) && NoMatchBefore(items, keywords, i)
    ensures Find(items, keywords) == Success(Some(items[i].fields))
  {
    FindFails(items, keywords);
    FirstMatchNoFailure(items, keywords, i);
    FindNone(items, keywords);
    FindReturnsFirst(items, keywords);
    var j :| 0 <= j < |items| && items[j] == Obj(Find(items, keywords).value.value)
      && Matches(items[j].fields, keywords) && NoMatchBefore(items, keywords, j);
    FirstMatchUnique(items, keywords, i, j);
  }

  /** Before the first match there is no non-object, and a match is there. */
  lemma FirstMatchNoFailure(items: seq<Json>, keywords: seq<string>, i: int)
    requires 0 <= i < |items|
    requires items[i].Obj? && Matches(items[i].fields, keywords) && NoMatchBefore(items, keywords, i)
    ensures !NoMatchBefore(items, keywords, |items|)
    ensures forall j :: 0 <= j < |items| && !items[j].Obj? ==> !NoMatchBefore(items, keywords, j)
  {
    forall j | 0 <= j < |items| && !items[j].Obj? ensures !NoMatchBefore(items, keywords, j) {
      assert j > i;
    }
  }

  /** Two first matches are the same item. */
  lemma FirstMatchUnique(items: seq<Json>, keywords: seq<string>, i: int, j: int)
    requires 0 <= i < |items| && 0 <= j < |items|
    requires items[i].Obj? && Matches(items[i].fields, keywords) && NoMatchBefore(items, keywords, i)
    requires items[j].Obj? && Matches(items[j].fields, keywords) && NoMatchBefore(items, keywords, j)
    ensures i == j
  {
  }

  /** Conversely, whatever `_find` returns is the first match. */
  lemma {:induction false} FindReturnsFirst(items: seq<Json>, keywords: seq<string>)
    requires Find(items, keywords).Success? && Find(items, keywords).value.Some?
    ensures exists i :: (0 <= i < |items| && items[i] == Obj(Find(items, keywords).value.value)
      && Matches(items[i].fields, keywords) && NoMatchBefore(items, keywords, i))
  {
    if !Matches(items[0].fields, keywords) {
      var tail := items[1..];
      FindReturnsFirst(tail, keywords);
      var j :| 0 <= j < |tail| && tail[j] == Obj(Find(tail, keywords).value.value)
        && Matches(tail[j].fields, keywords) && NoMatchBefore(tail, keywords, j);
      assert items[j + 1] == tail[j];
      assert NoMatchBefore(items, keywords, j + 1) by {
        forall k | 0 <= k < j + 1 ensures items[k].Obj? && !Matches(items[k].fields, keywords) {
          if k > 0 {
            assert items[k] == tail[k - 1];
          }
        }
      }
    } else {
      assert NoMatchBefore(items, keywords, 0);
    }
  }

  /** `_find` finds nothing exactly when every item is an object whose name
      contains no keyword. */
  lemma {:induction false} FindNone(items: seq<Json>, keywords: seq<string>)
    ensures Find(items, keywords) == Success(None) <==> NoMatchBefore(items, keywords, |items|)
  {
    if |items| > 0 {
      var tail := items[1..];
      FindNone(tail, keywords);
      assert forall k :: 0 <= k < |tail| ==> tail[k] == items[k + 1];
      if items[0].Obj? && !Matches(items[0].fields, keywords) {
        assert NoMatchBefore(items, keywords, |items|) <==> NoMatchBefore(tail, keywords, |tail|) by {
          if NoMatchBefore(tail, keywords, |tail|) {
            forall k | 0 <= k < |items| ensures items[k].Obj? && !Matches(items[k].fields, keywords) {
              if k > 0 {
                assert items[k] == tail[k - 1];
              }
            }
          }
        }
      }
    }
  }

  /** `_find` fails exactly when a non-object comes before any match. */
  lemma {:induction false} FindFails(items: seq<Json>, keywords: seq<string>)
    ensures Find(items, keywords).Failure? <==>
      exists i :: 0 <= i < |items| && !items[i].Obj? && NoMatchBefore(items, keywords, i)
  {
    if |items| > 0 {
      var tail := items[1..];
      FindFails(tail, keywords);
      if !items[0].Obj? {
        assert NoMatchBefore(items, keywords, 0);
      } else if Matches(items[0].fields, keywords) {
        forall i | 0 <= i < |items| && !items[i].Obj?
          ensures !NoMatchBefore(items, keywords, i)
        {
          assert i > 0;
        }
      } else {
        if exists i :: 0 <= i < |tail| && !tail[i].Obj? && NoMatchBefore(tail, keywords, i) {
          var i :| 0 <= i < |tail| && !tail[i].Obj? && NoMatchBefore(tail, keywords, i);
          assert items[i + 1] == tail[i];
          assert NoMatchBefore(items, keywords, i + 1) by {
            forall k | 0 <= k < i + 1 ensures items[k].Obj? && !Matches(items[k].fields, keywords) {
              if k > 0 {
                assert items[k] == tail[k - 1];
              }
            }
          }
        }
        if exists i :: 0 <= i < |items| && !items[i].Obj? && NoMatchBefore(items, keywords, i) {
          var i :| 0 <= i < |items| && !items[i].Obj? && NoMatchBefore(items, keywords, i);
          assert i > 0;
          assert tail[i - 1] == items[i];
          assert NoMatchBefore(tail, keywords, i - 1) by {
            forall k | 0 <= k < i - 1 ensures tail[k].Obj? && !Matches(tail[k].fields, keywords) {
              assert tail[k] == items[k + 1];
            }
          }
        }
      }
    }
  }

  // ------------------------------------------------------- get_prices_try

  const GOLD_KW: seq<string> := ["gram alt", "gramalt", "alt\U{0131}n", "altin"]
  const SILVER_KW: seq<string> := ["gram g\U{00FC}m", "gram gum", "g\U{00FC}m\U{00FC}\U{015F}", "gumus", "silver"]

  function Keywords(a: AssetId): seq<string> {
    if a == XAU_G then GOLD_KW else SILVER_KW
  }

  /** What `put(asset, keywords)` finds: nothing, or the mid of the matched
      item's bid and ask. */
  function Lookup(items: seq<Json>, a: AssetId): (r: Result<Option<real>, Error>)
    ensures r.Success? && r.value.Some? ==>
      var f := Find(items, Keywords(a));
      f.Success? && f.value.Some? && ReadBidAsk(f.value.value).Success?
      && r.value.value == (ReadBidAsk(f.value.value).value.0 + ReadBidAsk(f.value.value).value.1) / 2.0
    ensures r == Success(None) <==> Find(items, Keywords(a)) == Success(None)
  {
    var found :- Find(items, Keywords(a));
    match found
    case None => Success(None)
    case Some(it) =>
      var ba :- ReadBidAsk(it);
      Success(Some((ba.0 + ba.1) / 2.0))
  }

  /** What `get_prices_try` makes of the gold and silver lookups: a lookup
      is consulted only when its metal was asked for (gold first, so its
      error wins), and an empty result is an error. */
  function Collect(want: set<AssetId>, gold: Result<Option<real>, Error>, silver: Result<Option<real>, Error>)
    : (r: Result<map<AssetId, real>, Error>)
    ensures r.Success? ==> |r.value| > 0 && r.value.Keys <= want * METAL_IDS
    ensures want * METAL_IDS == {} ==> r == Failure(Provider(NothingMatched))
    ensures XAU_G in want && gold.Failure? ==> r == Failure(gold.error)
  {
    assert XAU_G != XAG_G by { assert XAU_G[2] != XAG_G[2]; }
    assert XAU_G in want ==> XAU_G in want * METAL_IDS;
    assert XAG_G in want ==> XAG_G in want * METAL_IDS;
    var g :- if XAU_G in want then gold else Success(None);
    var s :- if XAG_G in want then silver else Success(None);
    var out := (if g.Some? then map[XAU_G := g.value] else map[])
      + (if s.Some? then map[XAG_G := s.value] else map[]);
    if |out| == 0 then Failure(Provider(NothingMatched)) else Success(out)
  }

  /** The call succeeds exactly when no requested lookup fails and some
      requested lookup finds an item; the result then holds the mid of each
      found requested metal and nothing else. */
  lemma CollectCharacterized(want: set<AssetId>, gold: Result<Option<real>, Error>, silver: Result<Option<real>, Error>)
    ensures Collect(want, gold, silver).Success? <==>
      (XAU_G in want ==> gold.Success?) && (XAG_G in want ==> silver.Success?)
      && ((XAU_G in want && gold.Success? && gold.value.Some?) || (XAG_G in want && silver.Success? && silver.value.Some?))
    ensures Collect(want, gold, silver).Success? ==>
      var out := Collect(want, gold, silver).value;
      (XAU_G in out <==> XAU_G in want && gold.value.Some?)
      && (XAG_G in out <==> XAG_G in want && silver.value.Some?)
      && (XAU_G in out ==> out[XAU_G] == gold.value.value)
      && (XAG_G in out ==> out[XAG_G] == silver.value.value)
  {
    assert XAU_G != XAG_G by { assert XAU_G[2] != XAG_G[2]; }
  }

  /** `get_prices_try(assets)`: a fetch failure passes through unchanged;
      otherwise gold and silver are looked up among the flattened items. */
  function GetPricesTry(want: set<AssetId>, fetched: Result<seq<Json>, Error>): (r: Result<map<AssetId, real>, Error>)
    ensures fetched.Failure? ==> r == Failure(fetched.error)
    ensures fetched.Success? ==>
      var items := FetchItems(fetched.value);
      r == Collect(want, Lookup(items, XAU_G), Lookup(items, XAG_G))
    ensures r.Success? ==> |r.value| > 0 && r.value.Keys <= want * METAL_IDS
    ensures want * METAL_IDS == {} ==> r.Failure?
  {
    var values :- fetched;
    var items := FetchItems(values);
    Collect(want, Lookup(items, XAU_G), Lookup(items, XAG_G))
  }
}
