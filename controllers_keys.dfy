/**
 * controllers/keys_controller.go: the admin pages that mint keys, report
 * one key's status and list every key with its "used" flag.
 */
module KeysController {
  import opened Wrappers
  import Web
  import Types
  import Helper
  import Keys
  import Entries

  // ---------------------------------------------------------------------------
  // strconv.Atoi on a 64-bit platform

  const MaxInt := 0x7fff_ffff_ffff_ffff
  const MinInt := -0x8000_0000_0000_0000

  predicate IsDigit(c: char) {
    '0' <= c <= '9'
  }

  /** At least one digit and nothing else. */
  predicate AllDigits(d: string) {
    |d| > 0 && forall i :: 0 <= i < |d| ==> IsDigit(d[i])
  }

  /** What Atoi accepts: an optional '+' or '-', then decimal digits (no spaces, no underscores). */
  predicate IsNumeral(s: string) {
    AllDigits(s) || (|s| > 0 && (s[0] == '+' || s[0] == '-') && AllDigits(s[1..]))
  }

  /** The value of a run of decimal digits, most significant first. */
  function DigitsValue(d: string): nat
    requires forall i :: 0 <= i < |d| ==> IsDigit(d[i])
  {
    if d == [] then 0
    else
      assert IsDigit(d[|d| - 1]);
      10 * DigitsValue(d[..|d| - 1]) + (d[|d| - 1] as int - '0' as int)
  }

  function Clamp(v: int): int {
    if v > MaxInt then MaxInt else if v < MinInt then MinInt else v
  }

  /** The value of a run of one or more decimal digits, or None if there is none or anything else is in it. */
  function ReadDigits(d: string): (v: Option<nat>)
    decreases |d|
  {
    if d == [] || !IsDigit(d[|d| - 1]) then None
    else
      var unit := d[|d| - 1] as int - '0' as int;
      if |d| == 1 then Some(unit)
      else match ReadDigits(d[..|d| - 1])
        case None => None
        case Some(front) => Some(10 * front + unit)
  }

  /** ReadDigits accepts exactly the runs of digits, and reads their value. */
  lemma {:induction false} ReadDigitsMeaning(d: string)
    ensures ReadDigits(d).Some? <==> AllDigits(d)
    ensures ReadDigits(d).Some? ==> ReadDigits(d).value == DigitsValue(d)
    decreases |d|
  {
    if |d| > 1 {
      var front := d[..|d| - 1];
      ReadDigitsMeaning(front);
      if AllDigits(d) {
        assert AllDigits(front);
      } else if IsDigit(d[|d| - 1]) {
        var i :| 0 <= i < |d| && !IsDigit(d[i]);
        assert !IsDigit(front[i]);
      }
    } else if |d| == 1 {
      assert DigitsValue(d[..0]) == 0;
    }
  }

  /**
   * strconv.Atoi with its error dropped, as KeysGenerate uses it: a
   * malformed string reads as 0; a numeral outside the int range reads as
   * the nearest bound.
   */
  function Atoi(s: string): (n: int)
    ensures MinInt <= n <= MaxInt
  {
    var signed := |s| > 0 && (s[0] == '+' || s[0] == '-');
    match ReadDigits(if signed then s[1..] else s)
    case None => 0
    case Some(v) => if signed && s[0] == '-' then Clamp(-(v as int)) else Clamp(v)
  }

  /** What Atoi makes of each shape of input. */
  lemma AtoiCases(s: string)
    ensures !IsNumeral(s) ==> Atoi(s) == 0
    ensures AllDigits(s) ==> Atoi(s) == Clamp(DigitsValue(s))
    ensures IsNumeral(s) && s[0] == '+' ==> Atoi(s) == Clamp(DigitsValue(s[1..]))
    ensures IsNumeral(s) && s[0] == '-' ==> Atoi(s) == Clamp(-(DigitsValue(s[1..]) as int))
  {
    ReadDigitsMeaning(s);
    if |s| > 0 {
      ReadDigitsMeaning(s[1..]);
    }
    if |s| > 0 && (s[0] == '+' || s[0] == '-') {
      assert !AllDigits(s) by { assert !IsDigit(s[0]); }
    }
  }

  /** The decimal numeral of n, as strconv.Itoa writes it. */
  function Decimal(n: nat): (d: string)
    ensures AllDigits(d)
    decreases n
  {
    var last := ['0' + ((n % 10) as char)];
    if n < 10 then last else Decimal(n / 10) + last
  }

  lemma {:induction false} DecimalValue(n: nat)
    ensures DigitsValue(Decimal(n)) == n
    decreases n
  {
    var d := Decimal(n);
    if n >= 10 {
      DecimalValue(n / 10);
      assert d[..|d| - 1] == Decimal(n / 10);
    }
  }

  /** Atoi reads back what Itoa writes, for every int, negative ones included. */
  lemma AtoiReadsDecimal(n: int)
    requires MinInt <= n <= MaxInt
    ensures n >= 0 ==> Atoi(Decimal(n)) == n
    ensures n < 0 ==> Atoi("-" + Decimal(-n)) == n
  {
    if n >= 0 {
      DecimalValue(n);
      AtoiCases(Decimal(n));
    } else {
      DecimalValue(-n);
      var s := "-" + Decimal(-n);
      assert s[1..] == Decimal(-n);
      AtoiCases(s);
    }
  }

  // ---------------------------------------------------------------------------
  // KeysGenerate

  const MaxQuantity := 1000000
  const MinLength := 6
  const MaxLength := 100

  /** Whether KeysGenerate's bounds let a request through to Generate. */
  predicate InBounds(q: int, length: int) {
    0 < q <= MaxQuantity && MinLength <= length <= MaxLength
  }

  /** A form value that is not a numeral never passes the bounds. */
  lemma NonNumeralRejected(quantity: string, length: string)
    requires !IsNumeral(quantity) || !IsNumeral(length)
    ensures !InBounds(Atoi(quantity), Atoi(length))
  {
    AtoiCases(quantity);
    AtoiCases(length);
  }

  /**
   * Lengths 65..100 pass the bounds, but no key that long is valid: such
   * keys can never be used to create an entry or store a picture.
   */
  lemma LongKeysUnusable(length: int, k: string)
    requires InBounds(1, length) && length > Types.MaxKeyRunes && |k| == length
    ensures !Types.ValidKey(k)
  {
  }

  /** Lengths 6..64 give keys that ValidKey accepts. */
  lemma ShortKeysUsable(length: int, k: string)
    requires InBounds(1, length) && length <= Types.MaxKeyRunes && |k| == length && Helper.OverAlphabet(k)
    ensures Types.ValidKey(k)
  {
    Helper.RandKeyIsValidKey(k);
  }

  function KeyErrorText(e: Keys.KeyError): string {
    match e
    case ReadFailed => "read failed"
    case DecodeFailed => "decode failed"
    case FlushFailed => "flush failed"
    case RandFailed => "random source failed"
    case Collision => "failed to generate unique key without collision"
  }

  /**
   * KeysGenerate's parameter gate: quantity must be 1..1000000 and length
   * 6..100, both inclusive whatever the message says; the first bound that
   * fails gives the 400 page.
   */
  function Rejection(q: int, length: int): (rej: Option<Web.Response>)
    ensures rej.None? <==> InBounds(q, length)
    ensures !(0 < q <= MaxQuantity) ==>
              rej == Some(Web.Page(Web.StatusBadRequest, "key_gen.html", "invalid count"))
    ensures 0 < q <= MaxQuantity && !(MinLength <= length <= MaxLength) ==>
              rej == Some(Web.Page(Web.StatusBadRequest, "key_gen.html", "length must be >6 and <100"))
  {
    if q <= 0 || q > MaxQuantity then
      Some(Web.Page(Web.StatusBadRequest, "key_gen.html", "invalid count"))
    else if length < MinLength || length > MaxLength then
      Some(Web.Page(Web.StatusBadRequest, "key_gen.html", "length must be >6 and <100"))
    else None
  }

  /**
   * KeysGenerate: the form's quantity and length through Atoi, then Mint.
   * `clock`, `draws` and `flushWrites` are Generate's environment; `batch`
   * is what the page lists.
   */
  method KeysGenerate(keys: Keys.KeysService, req: Web.Request, clock: nat -> int,
                      draws: nat -> Helper.Draw, flushWrites: bool)
    returns (resp: Web.Response, batch: seq<Keys.KeyInfo>)
    requires keys.Valid()
    modifies keys
    ensures keys.Valid()
    ensures Minted(keys.keys, keys.file, old(keys.keys), old(keys.file), Atoi(req.PostForm("quantity")),
                   Atoi(req.PostForm("length")), clock, draws, flushWrites, resp, batch)
  {
    resp, batch := Mint(keys, Atoi(req.PostForm("quantity")), Atoi(req.PostForm("length")), clock, draws, flushWrites);
  }

  /** The answers KeysGenerate can give once the bounds let a request through. */
  predicate GenerateAnswer(resp: Web.Response) {
    || resp == Web.Page(Web.StatusOK, "key_gen.html", "")
    || resp == Web.Json(Web.StatusInternalServerError, KeyErrorText(Keys.FlushFailed))
    || resp == Web.Json(Web.StatusInternalServerError, KeyErrorText(Keys.RandFailed))
    || resp == Web.Json(Web.StatusInternalServerError, KeyErrorText(Keys.Collision))
  }

  /**
   * A random-source error or exhausted attempts stopped Generate: keys.json
   * is as it was, and the keys the run accepted before it stopped stay in
   * the registry.
   */
  ghost predicate Stopped(drawn: seq<string>, after: map<string, Keys.KeyInfo>, fileAfter: Keys.KeysFile,
                          before: map<string, Keys.KeyInfo>, fileBefore: Keys.KeysFile,
                          length: nat, clock: nat -> int)
  {
    && fileAfter == fileBefore
    && exists part :: Keys.FreshBatch(part, before, "", clock, length) && after == before + Keys.Index(part) &&
                      Keys.KeysOf(part) == drawn
  }

  /**
   * What a KeysGenerate request for q keys of the given length leaves:
   * a rejected request changes nothing; otherwise the answer follows
   * Generate's key loop (KeyRun) and the flush. A run that accepts q keys
   * and a flush that succeeds give the 200 page listing those keys, added
   * to the registry and flushed to keys.json; a flush that fails gives its
   * 500 and changes nothing; a run that stops early gives its error's 500
   * and keeps the keys inserted so far. When the first q attempts draw
   * fresh, distinct keys and the flush succeeds, the page lists exactly
   * those.
   */
  ghost predicate Minted(after: map<string, Keys.KeyInfo>, fileAfter: Keys.KeysFile,
                         before: map<string, Keys.KeyInfo>, fileBefore: Keys.KeysFile,
                         q: int, length: int, clock: nat -> int, draws: nat -> Helper.Draw, flushWrites: bool,
                         resp: Web.Response, batch: seq<Keys.KeyInfo>)
  {
    var rej := Rejection(q, length);
    && (rej.Some? ==> resp == rej.value && batch == [] && after == before && fileAfter == fileBefore)
    && (rej.None? ==>
          var run := Keys.KeyRun(Keys.Cands(length as nat, draws), before.Keys, q as nat, 0);
          && GenerateAnswer(resp)
          && (resp.Page? <==> run.stop.None? && flushWrites)
          && (resp.Page? ==>
                && |batch| == q && Keys.KeysOf(batch) == run.drawn
                && Keys.FreshBatch(batch, before, "", clock, length)
                && after == before + Keys.Index(batch)
                && fileAfter.Stored? && Keys.ListsExactly(fileAfter.list, after) && Keys.SortedBy(fileAfter.list, true))
          && (resp == Web.Json(Web.StatusInternalServerError, KeyErrorText(Keys.FlushFailed)) <==>
                run.stop.None? && !flushWrites)
          && (run.stop.None? && !flushWrites ==> batch == [] && after == before && fileAfter == fileBefore)
          && (run.stop.Some? ==>
                && resp == Web.Json(Web.StatusInternalServerError, KeyErrorText(run.stop.value)) && batch == []
                && Stopped(run.drawn, after, fileAfter, before, fileBefore, length, clock))
          && (flushWrites && Keys.FreshStream(before, q, length, draws) ==>
                resp.Page? && forall i :: 0 <= i < q ==> Keys.Candidate(length, draws, i) == Some(batch[i].key)))
  }

  /** The gate, then Generate with an empty comment; an error becomes a 500 answer carrying its text. */
  method Mint(keys: Keys.KeysService, q: int, length: int, clock: nat -> int,
              draws: nat -> Helper.Draw, flushWrites: bool)
    returns (resp: Web.Response, batch: seq<Keys.KeyInfo>)
    requires keys.Valid()
    modifies keys
    ensures keys.Valid()
    ensures Minted(keys.keys, keys.file, old(keys.keys), old(keys.file), q, length, clock, draws, flushWrites, resp, batch)
  {
    var rej := Rejection(q, length);
    if rej.Some? {
      return rej.value, [];
    }
    var out, attempts := keys.Generate(q, length, "", clock, draws, flushWrites);
    if out.Err? {
      return Web.Json(Web.StatusInternalServerError, KeyErrorText(out.error)), [];
    }
    return Web.Page(Web.StatusOK, "key_gen.html", ""), out.value;
  }

  // ---------------------------------------------------------------------------
  // KeyStatus and KeysList

  /** The JSON KeyStatus answers with (always status 200). */
  datatype KeyStatusBody =
    | NotFound(key: string)
    | Known(key: string, status: string, createdAt: int)

  /** KeyStatus: "not_found" for an unregistered key; else "used" if it has an entry, "available" if not. */
  function KeyStatus(keys: Keys.KeysService, entries: Entries.EntriesService, k: string): (b: KeyStatusBody)
    reads keys, entries
    ensures b.key == k
    ensures b.NotFound? <==> k !in keys.keys
    ensures b.Known? ==> b.createdAt == keys.keys[k].createdAt
    ensures b.Known? ==> (b.status == "used" <==> entries.HasData(k))
    ensures b.Known? ==> (b.status == "available" <==> !entries.HasData(k))
  {
    match keys.Get(k)
    case None => NotFound(k)
    case Some(info) => Known(k, if entries.HasData(k) then "used" else "available", info.createdAt)
  }

  /** One row of the key list page. */
  datatype KeyRow = KeyRow(key: string, createdAt: int, used: bool)

  /**
   * KeysList: List's records, newest first, each with whether it already
   * holds an entry.
   */
  method KeysList(keys: Keys.KeysService, entries: Entries.EntriesService) returns (rows: seq<KeyRow>)
    requires keys.Valid()
    ensures forall i :: 0 <= i < |rows| ==>
              rows[i].key in keys.keys && rows[i].createdAt == keys.keys[rows[i].key].createdAt &&
              rows[i].used == entries.HasData(rows[i].key)
    ensures forall k :: k in keys.keys ==> exists i :: 0 <= i < |rows| && rows[i].key == k
    ensures forall i, j :: 0 <= i < j < |rows| ==> rows[i].key != rows[j].key
    ensures forall i, j :: 0 <= i < j < |rows| ==> rows[i].createdAt >= rows[j].createdAt
  {
    var all := keys.List();
    rows := [];
    for i := 0 to |all|
      invariant |rows| == i
      invariant forall j :: 0 <= j < i ==> rows[j] == KeyRow(all[j].key, all[j].createdAt, entries.HasData(all[j].key))
    {
      rows := rows + [KeyRow(all[i].key, all[i].createdAt, entries.HasData(all[i].key))];
    }
    ListedOnce(all, keys.keys);
    forall k | k in keys.keys ensures exists i :: 0 <= i < |rows| && rows[i].key == k {
      var i :| 0 <= i < |all| && all[i] == keys.keys[k];
      assert rows[i].key == k;
    }
    forall i, j | 0 <= i < j < |rows| ensures rows[i].createdAt >= rows[j].createdAt {
      assert Keys.InOrder(all[i], all[j], false);
    }
  }

  /** A list that holds every record of a well-keyed map once holds each key once, at the record filed under it. */
  lemma ListedOnce(all: seq<Keys.KeyInfo>, m: map<string, Keys.KeyInfo>)
    requires Keys.WellKeyed(m) && Keys.ListsExactly(all, m)
    ensures forall i :: 0 <= i < |all| ==> all[i].key in m && m[all[i].key] == all[i]
    ensures forall i, j :: 0 <= i < j < |all| ==> all[i].key != all[j].key
    ensures forall k :: k in m ==> exists i :: 0 <= i < |all| && all[i] == m[k]
  {
    forall i | 0 <= i < |all| ensures all[i].key in m && m[all[i].key] == all[i] {
      assert all[i] in all;
    }
    forall i, j | 0 <= i < j < |all| ensures all[i].key != all[j].key {
      if all[i].key == all[j].key {
        assert all[i] == all[j];
        Keys.RepeatCountsTwice(all, i, j);
      }
    }
  }
}
