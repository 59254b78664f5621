/**
 * The contact repository: `create`, `findById`, `findAll` and `deleteById`
 * over the `contacts` table.
 *
 * The table is a class holding its rows in rowid order and the AUTOINCREMENT
 * counter. What the SQL statements compute is given by the functions of this
 * module (`Lookup`, `Without`, `NewestFirst`, `Page`), and the lemmas below
 * state what they guarantee.
 */
module ContactRepository {
  import opened Wrappers
  import opened JsText
  import opened Schema

  /** The largest rowid; past it AUTOINCREMENT fails with SQLITE_FULL. */
  const MAX_ROWID: int := 0x7FFF_FFFF_FFFF_FFFF

  const DEFAULT_PAGE: int := 1
  const DEFAULT_LIMIT: int := 20

  // ---------------------------------------------------------------------------
  // Keys

  /** A value bound to the `?` of `WHERE id = ?`: a JavaScript number or a string. */
  datatype SqlValue = IntegerValue(i: int) | TextValue(t: JsString)

  /** The characters SQLite skips around a numeric text: space, tab, LF, VT, FF and CR. */
  predicate IsSqlSpace(c: CodeUnit) {
    c == 0x20 || 0x09 <= c <= 0x0D
  }

  /** `t` without the spaces at its front. */
  function DropLeadingSpace(t: JsString): (r: JsString)
    ensures |r| <= |t|
  {
    if t != [] && IsSqlSpace(t[0]) then DropLeadingSpace(t[1..]) else t
  }

  /** `t` without the spaces at its end. */
  function DropTrailingSpace(t: JsString): (r: JsString)
    ensures |r| <= |t|
  {
    if t != [] && IsSqlSpace(t[|t| - 1]) then DropTrailingSpace(t[..|t| - 1]) else t
  }

  /** `10^n`. */
  function Pow10(n: nat): (p: nat)
    ensures p >= 1
  {
    if n == 0 then 1 else 10 * Pow10(n - 1)
  }

  /** `m * 10^k` when that is an integer. */
  function ScaledInteger(m: nat, k: int): Option<int> {
    if k >= 0 then Some(m * Pow10(k))
    else if m % Pow10(-k) == 0 then Some(m / Pow10(-k))
    else None
  }

  const LOWER_E: CodeUnit := 0x65
  const UPPER_E: CodeUnit := 0x45

  /** The exponent part of a numeral: nothing (0), or `e`/`E`, an optional sign and digits. */
  function ExponentOf(r: JsString): Option<int> {
    if r == [] then Some(0)
    else if r[0] != LOWER_E && r[0] != UPPER_E then None
    else
      var x := r[1..];
      var negative := x != [] && x[0] == MINUS;
      var d := if x != [] && (x[0] == MINUS || x[0] == PLUS) then x[1..] else x;
      if d != [] && forall i :: 0 <= i < |d| ==> IsDigit(d[i]) then
        var v: int := DigitsValue(d);
        Some(if negative then -v else v)
      else None
  }

  /** After the integer digits: the fraction digits behind a dot, if any, and what follows them. */
  function FractionPart(r: JsString): (p: (JsString, JsString))
    ensures forall i :: 0 <= i < |p.0| ==> IsDigit(p.0[i])
  {
    if r != [] && r[0] == DOT then
      var fp := LeadingDigits(r[1..]);
      (fp, r[1..][|fp|..])
    else ([], r)
  }

  /**
   * An unsigned numeral `digits [. digits] [exponent]` with at least one
   * digit, as `(m, k)` for the value `m * 10^k`, if `u` is one.
   */
  function Numeral(u: JsString): Option<(nat, int)> {
    var ip := LeadingDigits(u);
    var p := FractionPart(u[|ip|..]);
    NumeralFrom(ip, p.0, p.1)
  }

  /** The mantissa and power of ten of integer digits `ip`, fraction digits `fp` and exponent part `rest`. */
  function NumeralFrom(ip: JsString, fp: JsString, rest: JsString): Option<(nat, int)>
    requires forall i :: 0 <= i < |ip| ==> IsDigit(ip[i])
    requires forall i :: 0 <= i < |fp| ==> IsDigit(fp[i])
  {
    if |ip| + |fp| == 0 then None
    else
      match ExponentOf(rest)
      case None => None
      case Some(e) =>
        assert forall i :: 0 <= i < |ip + fp| ==> IsDigit((ip + fp)[i]);
        Some((DigitsValue(ip + fp), e - |fp|))
  }

  /**
   * The integer a text bound to `id = ?` stands for under SQLite's numeric
   * affinity: surrounding spaces are skipped, and an integer or real literal
   * whose value is a whole number selects that integer. Any other text,
   * including a real with a fraction, matches no rowid.
   */
  function IntegerText(t: JsString): Option<int> {
    var v := DropTrailingSpace(DropLeadingSpace(t));
    var negative := v != [] && v[0] == MINUS;
    var u := if v != [] && (v[0] == MINUS || v[0] == PLUS) then v[1..] else v;
    match Numeral(u)
    case None => None
    case Some((m, k)) =>
      match ScaledInteger(m, k)
      case None => None
      case Some(n) => Some(if negative then -n else n)
  }

  /** The integer that `id = ?` compares the column with; `None` when no row can match. */
  function KeyOf(v: SqlValue): Option<int> {
    match v
    case IntegerValue(i) => Some(i)
    case TextValue(t) => IntegerText(t)
  }

  /** The fraction digits behind a dot, followed by a non-digit, are read as such. */
  lemma FractionOf(fp: JsString, r2: JsString)
    requires forall i :: 0 <= i < |fp| ==> IsDigit(fp[i])
    requires r2 == [] || !IsDigit(r2[0])
    ensures FractionPart([DOT] + (fp + r2)) == (fp, r2)
  {
    assert ([DOT] + (fp + r2))[1..] == fp + r2;
    LeadingDigitsOf(fp, r2);
    assert (fp + r2)[|fp|..] == r2;
  }

  /** A numeral with a dot: integer digits, the dot, fraction digits, then the exponent part. */
  lemma DottedNumeral(ip: JsString, fp: JsString, r2: JsString)
    requires forall i :: 0 <= i < |ip| ==> IsDigit(ip[i])
    requires forall i :: 0 <= i < |fp| ==> IsDigit(fp[i])
    requires |ip| + |fp| > 0
    requires r2 == [] || !IsDigit(r2[0])
    ensures Numeral(ip + ([DOT] + (fp + r2))) == match ExponentOf(r2)
      case None => None
      case Some(e) => Some((DigitsValue(ip + fp), e - |fp|))
  {
    var x := [DOT] + (fp + r2);
    assert Numeral(ip + x) == NumeralFrom(ip, fp, r2) by {
      LeadingDigitsOf(ip, x);
      assert (ip + x)[|ip|..] == x;
      FractionOf(fp, r2);
    }
  }

  /** A numeral without a dot: digits, then the exponent part. */
  lemma PlainNumeral(ip: JsString, r2: JsString)
    requires forall i :: 0 <= i < |ip| ==> IsDigit(ip[i])
    requires |ip| > 0
    requires r2 == [] || (!IsDigit(r2[0]) && r2[0] != DOT)
    ensures Numeral(ip + r2) == match ExponentOf(r2)
      case None => None
      case Some(e) => Some((DigitsValue(ip), e))
  {
    assert Numeral(ip + r2) == NumeralFrom(ip, [], r2) by {
      LeadingDigitsOf(ip, r2);
      assert (ip + r2)[|ip|..] == r2;
      assert FractionPart(r2) == ([], r2);
    }
    assert NumeralFrom(ip, [], r2) == match ExponentOf(r2)
      case None => None
      case Some(e) => Some((DigitsValue(ip), e))
    by {
      assert ip + [] == ip;
    }
  }

  /** An unsigned numeral with nothing around it is read as the integer its value scales to. */
  lemma UnsignedText(t: JsString)
    requires t != [] && IsDigit(t[0]) && IsDigit(t[|t| - 1])
    ensures IntegerText(t) == match Numeral(t)
      case None => None
      case Some((m, k)) => ScaledInteger(m, k)
  {
    assert DropLeadingSpace(t) == t;
    assert DropTrailingSpace(t) == t;
  }

  /** The decimal text of an id, as it arrives in a request path, selects that id. */
  lemma KeyOfDecimal(n: nat)
    ensures KeyOf(TextValue(Decimal(n))) == Some(n)
  {
    var d := Decimal(n);
    assert IsDigit(d[0]) && IsDigit(d[|d| - 1]);
    UnsignedText(d);
    PlainNumeral(d, []);
    assert d + [] == d;
    assert Numeral(d) == Some((DigitsValue(d), 0));
    DecimalValue(n);
    assert ScaledInteger(n, 0) == Some(n * 1);
  }

  /** A path id written as a real with a zero fraction selects the row its integer part does. */
  lemma KeyOfPointZero()
    ensures KeyOf(TextValue(Lit("1.0"))) == Some(1)
  {
    var t := Lit("1.0");
    assert t == [0x31] + ([DOT] + ([0x30] + []));
    assert DigitsValue([0x31, 0x30]) == 10 by {
      assert [0x31, 0x30][..1] == [0x31];
    }
    assert Numeral(t) == Some((10, -1)) by {
      DottedNumeral([0x31], [0x30], []);
      assert [0x31] + [0x30] == [0x31, 0x30];
    }
    assert ScaledInteger(10, -1) == Some(1) by {
      assert Pow10(1) == 10;
    }
    UnsignedText(t);
  }

  /** An exponent part: the letter `e` followed by digits. */
  lemma ExponentDigits(c: CodeUnit, d: JsString)
    requires c == LOWER_E || c == UPPER_E
    requires d != [] && forall i :: 0 <= i < |d| ==> IsDigit(d[i])
    ensures ExponentOf([c] + d) == Some(DigitsValue(d))
  {
    assert ([c] + d)[1..] == d;
  }

  /** So does a real in exponent notation whose value is a whole number. */
  lemma KeyOfExponent()
    ensures KeyOf(TextValue(Lit("1e0"))) == Some(1)
  {
    var t := Lit("1e0");
    var e := [LOWER_E] + [0x30];
    assert t == [0x31] + e;
    UnsignedText(t);
    PlainNumeral([0x31], e);
    ExponentDigits(LOWER_E, [0x30]);
    assert DigitsValue([0x31]) == 1 && DigitsValue([0x30]) == 0;
    assert Numeral(t) == Some((1, 0));
    assert ScaledInteger(1, 0) == Some(1);
  }

  /** Spaces around the id are skipped. */
  lemma KeyOfSpaced()
    ensures KeyOf(TextValue(Lit(" 1 "))) == Some(1)
  {
    var t := Lit(" 1 ");
    assert t == [0x20, 0x31, 0x20];
    assert DropLeadingSpace(t) == [0x31, 0x20];
    assert DropTrailingSpace([0x31, 0x20]) == [0x31];
    PlainNumeral([0x31], []);
    assert [0x31] + [] == [0x31];
  }

  /** A real with a fraction matches no rowid. */
  lemma KeyOfFraction()
    ensures KeyOf(TextValue(Lit("1.5"))) == None
  {
    var t := Lit("1.5");
    assert t == [0x31] + ([DOT] + ([0x35] + []));
    assert DigitsValue([0x31, 0x35]) == 15 by {
      assert [0x31, 0x35][..1] == [0x31];
    }
    assert Numeral(t) == Some((15, -1)) by {
      DottedNumeral([0x31], [0x35], []);
      assert [0x31] + [0x35] == [0x31, 0x35];
    }
    assert ScaledInteger(15, -1) == None by {
      assert Pow10(1) == 10;
    }
    UnsignedText(t);
  }

  // ---------------------------------------------------------------------------
  // The table as a sequence of rows

  /** Rows are kept in rowid order, so ids strictly increase and are unique. */
  predicate IdsAscending(rows: seq<Contact>) {
    forall j, k :: 0 <= j < k < |rows| ==> rows[j].id < rows[k].id
  }

  /** `SELECT * FROM contacts WHERE id = ?`. */
  function Lookup(rows: seq<Contact>, id: int): (r: Option<Contact>)
    ensures r.Some? ==> r.value in rows && r.value.id == id
    ensures r.None? <==> forall k :: 0 <= k < |rows| ==> rows[k].id != id
  {
    if rows == [] then None
    else if rows[0].id == id then Some(rows[0])
    else
      var r := Lookup(rows[1..], id);
      assert forall k :: 1 <= k < |rows| ==> rows[k] == rows[1..][k - 1];
      r
  }

  /** With unique ids, looking up the id of a row yields exactly that row. */
  lemma {:induction false} LookupFindsRow(rows: seq<Contact>, k: nat)
    requires IdsAscending(rows) && k < |rows|
    ensures Lookup(rows, rows[k].id) == Some(rows[k])
  {
    if k > 0 {
      assert rows[0].id < rows[k].id;
      assert rows[1..][k - 1] == rows[k];
      LookupFindsRow(rows[1..], k - 1);
    }
  }

  /** The rows that `DELETE FROM contacts WHERE id = ?` leaves, in their order. */
  function Without(rows: seq<Contact>, id: int): (r: seq<Contact>)
    ensures forall c :: c in r <==> c in rows && c.id != id
    ensures |r| <= |rows|
  {
    if rows == [] then []
    else
      var tail := Without(rows[1..], id);
      assert forall c :: c in rows <==> c == rows[0] || c in rows[1..];
      if rows[0].id == id then tail else [rows[0]] + tail
  }

  /** Deleting keeps the remaining rows in rowid order. */
  lemma {:induction false} WithoutKeepsOrder(rows: seq<Contact>, id: int)
    requires IdsAscending(rows)
    ensures IdsAscending(Without(rows, id))
  {
    if rows != [] {
      WithoutKeepsOrder(rows[1..], id);
      var tail := Without(rows[1..], id);
      forall c | c in tail ensures rows[0].id < c.id {
        var k :| 0 <= k < |rows[1..]| && rows[1..][k] == c;
        assert rows[k + 1] == c;
      }
    }
  }

  /**
   * After a delete by `id` no row has that id and every other id finds what it
   * found before: the row is gone and the others are unchanged.
   */
  lemma {:induction false} WithoutRemovesOnly(rows: seq<Contact>, id: int, other: int)
    ensures Lookup(Without(rows, id), id) == None
    ensures other != id ==> Lookup(Without(rows, id), other) == Lookup(rows, other)
  {
    if rows != [] {
      WithoutRemovesOnly(rows[1..], id, other);
    }
  }

  /** A delete removes one row when the id exists and none otherwise. */
  lemma {:induction false} WithoutCount(rows: seq<Contact>, id: int)
    requires IdsAscending(rows)
    ensures |Without(rows, id)| == if Lookup(rows, id).Some? then |rows| - 1 else |rows|
  {
    if rows != [] {
      assert IdsAscending(rows[1..]) by {
        forall j, k | 0 <= j < k < |rows[1..]| ensures rows[1..][j].id < rows[1..][k].id {
          assert rows[1..][j] == rows[j + 1] && rows[1..][k] == rows[k + 1];
        }
      }
      WithoutCount(rows[1..], id);
      if rows[0].id == id {
        assert forall k :: 0 <= k < |rows[1..]| ==> rows[1..][k].id != id by {
          forall k | 0 <= k < |rows[1..]| ensures rows[1..][k].id != id {
            assert rows[1..][k] == rows[k + 1];
          }
        }
      }
    }
  }

  // ---------------------------------------------------------------------------
  // ORDER BY created_at DESC

  /** `created_at` never increases along the sequence. */
  predicate NewestFirstOrder(s: seq<Contact>) {
    forall i, j :: 0 <= i < j < |s| ==> s[i].createdAt >= s[j].createdAt
  }

  function InsertByTime(c: Contact, s: seq<Contact>): (r: seq<Contact>)
    requires NewestFirstOrder(s)
    ensures NewestFirstOrder(r)
    ensures |r| == |s| + 1
    ensures r[0] == c || (s != [] && r[0] == s[0])
  {
    if s == [] || c.createdAt >= s[0].createdAt then
      [c] + s
    else
      var rest := InsertByTime(c, s[1..]);
      [s[0]] + rest
  }

  /** Inserting adds exactly the one row. */
  lemma {:induction false} InsertByTimeAdds(c: Contact, s: seq<Contact>)
    requires NewestFirstOrder(s)
    ensures multiset(InsertByTime(c, s)) == multiset(s) + multiset{c}
  {
    if s != [] && c.createdAt < s[0].createdAt {
      InsertByTimeAdds(c, s[1..]);
      assert s == [s[0]] + s[1..];
    }
  }

  /**
   * The result order of `ORDER BY created_at DESC`: a permutation of the rows
   * with `created_at` non-increasing. SQL fixes no order among rows of equal
   * `created_at`; this function puts them in ascending rowid order (the order
   * of a rowid scan followed by a stable sort, see `NewestFirstTiesByRowid`),
   * and the model takes that order for every query, so that consecutive pages
   * are cut from one and the same sequence.
   */
  function NewestFirst(rows: seq<Contact>): (r: seq<Contact>)
    ensures NewestFirstOrder(r)
    ensures multiset(r) == multiset(rows)
    ensures |r| == |rows|
  {
    if rows == [] then []
    else
      assert rows == [rows[0]] + rows[1..];
      InsertByTimeAdds(rows[0], NewestFirst(rows[1..]));
      InsertByTime(rows[0], NewestFirst(rows[1..]))
  }

  /** Among rows of equal `created_at`, the smaller rowid comes first. */
  predicate TiesByRowid(s: seq<Contact>) {
    forall j, k :: 0 <= j < k < |s| && s[j].createdAt == s[k].createdAt ==> s[j].id < s[k].id
  }

  /** A row put in front of rows in tie order keeps it when its id is below those of its ties. */
  lemma ConsTies(h: Contact, s: seq<Contact>)
    requires TiesByRowid(s)
    requires forall i :: 0 <= i < |s| && s[i].createdAt == h.createdAt ==> h.id < s[i].id
    ensures TiesByRowid([h] + s)
  {
    var r := [h] + s;
    forall j, k | 0 <= j < k < |r| && r[j].createdAt == r[k].createdAt
      ensures r[j].id < r[k].id
    {
      assert r[k] == s[k - 1];
      if j > 0 {
        assert r[j] == s[j - 1];
      }
    }
  }

  /** The head of tie-ordered rows precedes its ties among them once another row is inserted behind it. */
  lemma HeadBeforeTies(c: Contact, s: seq<Contact>)
    requires NewestFirstOrder(s) && TiesByRowid(s) && s != [] && c.createdAt < s[0].createdAt
    ensures var rest := InsertByTime(c, s[1..]);
      forall i :: 0 <= i < |rest| && rest[i].createdAt == s[0].createdAt ==> s[0].id < rest[i].id
  {
    var rest := InsertByTime(c, s[1..]);
    InsertByTimeAdds(c, s[1..]);
    forall i | 0 <= i < |rest| && rest[i].createdAt == s[0].createdAt
      ensures s[0].id < rest[i].id
    {
      assert rest[i] in multiset(rest);
      assert rest[i] in multiset(s[1..]);
      var m :| 0 <= m < |s[1..]| && s[1..][m] == rest[i];
      assert s[m + 1] == rest[i];
    }
  }

  /** Inserting a row whose id is below every other keeps ties in rowid order. */
  lemma {:induction false} InsertByTimeTies(c: Contact, s: seq<Contact>)
    requires NewestFirstOrder(s) && TiesByRowid(s)
    requires forall i :: 0 <= i < |s| ==> c.id < s[i].id
    ensures TiesByRowid(InsertByTime(c, s))
  {
    if s == [] || c.createdAt >= s[0].createdAt {
      ConsTies(c, s);
    } else {
      assert TiesByRowid(s[1..]) && forall i :: 0 <= i < |s[1..]| ==> c.id < s[1..][i].id;
      InsertByTimeTies(c, s[1..]);
      HeadBeforeTies(c, s);
      ConsTies(s[0], InsertByTime(c, s[1..]));
    }
  }

  /** Rows of equal `created_at` come out in ascending rowid order. */
  lemma {:induction false} NewestFirstTiesByRowid(rows: seq<Contact>)
    requires IdsAscending(rows)
    ensures TiesByRowid(NewestFirst(rows))
  {
    if rows != [] {
      var tail := NewestFirst(rows[1..]);
      assert IdsAscending(rows[1..]) by {
        forall j, k | 0 <= j < k < |rows[1..]| ensures rows[1..][j].id < rows[1..][k].id {
          assert rows[1..][j] == rows[j + 1] && rows[1..][k] == rows[k + 1];
        }
      }
      NewestFirstTiesByRowid(rows[1..]);
      forall i | 0 <= i < |tail| ensures rows[0].id < tail[i].id {
        assert tail[i] in multiset(rows[1..]);
        var m :| 0 <= m < |rows[1..]| && rows[1..][m] == tail[i];
        assert rows[m + 1] == tail[i];
      }
      InsertByTimeTies(rows[0], tail);
    }
  }

  // ---------------------------------------------------------------------------
  // LIMIT / OFFSET paging

  function Min(a: int, b: int): int {
    if a <= b then a else b
  }

  /** `LIMIT limit OFFSET offset` over an ordered result; a negative OFFSET counts as 0. */
  function Window(s: seq<Contact>, offset: int, limit: nat): (r: seq<Contact>)
    ensures |r| <= limit
  {
    var start := if offset < 0 then 0 else offset;
    if start >= |s| then [] else s[start..Min(start + limit, |s|)]
  }

  /** `Math.ceil(total / limit)`: the least number of pages of `limit` rows holding `total`. */
  function CeilDiv(total: nat, limit: int): (q: nat)
    requires limit >= 1
    ensures q * limit >= total
    ensures q == 0 || (q - 1) * limit < total
  {
    var t := total + limit - 1;
    var q := t / limit;
    assert t == q * limit + t % limit;
    q
  }

  datatype Pagination = Pagination(page: int, limit: int, total: nat, totalPages: nat)

  datatype PageResult = PageResult(data: seq<Contact>, pagination: Pagination)

  /** A window of an ordered sequence keeps the order and holds only its elements. */
  lemma WindowOfOrdered(s: seq<Contact>, offset: int, limit: nat)
    requires NewestFirstOrder(s)
    ensures NewestFirstOrder(Window(s, offset, limit))
    ensures forall c :: c in Window(s, offset, limit) ==> c in s
  {
    var w := Window(s, offset, limit);
    if w != [] {
      var start := if offset < 0 then 0 else offset;
      assert forall i :: 0 <= i < |w| ==> w[i] == s[start + i];
    }
  }

  /** `OFFSET (page - 1) * limit`. */
  function Offset(page: int, limit: int): int {
    (page - 1) * limit
  }

  /** `findAll({ page, limit })` on a table holding `rows`. */
  function Page(rows: seq<Contact>, page: int, limit: int): (r: PageResult)
    requires limit >= 1
    ensures |r.data| <= limit
    ensures NewestFirstOrder(r.data)
    ensures forall c :: c in r.data ==> c in rows
    ensures r.pagination.total == |rows|
    ensures r.pagination.page == page && r.pagination.limit == limit
  {
    var sorted := NewestFirst(rows);
    var data := Window(sorted, Offset(page, limit), limit);
    WindowOfOrdered(sorted, Offset(page, limit), limit);
    assert forall c :: c in sorted ==> c in multiset(rows);
    PageResult(data, Pagination(page, limit, |rows|, CeilDiv(|rows|, limit)))
  }

  lemma MulMonotone(a: int, b: int, limit: int)
    requires a <= b && limit >= 1
    ensures a * limit <= b * limit
  {
    assert b * limit - a * limit == (b - a) * limit;
  }

  /** How many rows a window of `limit` rows at a non-negative offset holds. */
  lemma WindowSize(s: seq<Contact>, offset: int, limit: nat)
    requires offset >= 0
    ensures |Window(s, offset, limit)| == if offset >= |s| then 0 else Min(limit, |s| - offset)
  {
  }

  /** Where page `page` starts relative to the `total` rows, given `CeilDiv(total, limit)` pages. */
  lemma PageArithmetic(total: nat, page: int, limit: int)
    requires page >= 1 && limit >= 1
    ensures Offset(page, limit) >= 0
    ensures Offset(page, limit) < total <==> page <= CeilDiv(total, limit)
    ensures page < CeilDiv(total, limit) ==> Offset(page, limit) + limit < total
  {
    var q := CeilDiv(total, limit);
    var off := Offset(page, limit);
    MulMonotone(0, page - 1, limit);
    if page <= q {
      MulMonotone(page - 1, q - 1, limit);
      if page < q {
        MulMonotone(page, q - 1, limit);
        assert page * limit == off + limit;
      }
    } else {
      MulMonotone(q, page - 1, limit);
    }
  }

  /**
   * Page sizes: page `p` (from 1) holds `limit` rows while full pages remain,
   * the remainder on the last page, and nothing past `totalPages`.
   */
  lemma PageSize(rows: seq<Contact>, page: int, limit: int)
    requires page >= 1 && limit >= 1
    ensures var r := Page(rows, page, limit);
      && (r.data != [] <==> page <= r.pagination.totalPages)
      && (page < r.pagination.totalPages ==> |r.data| == limit)
      && (page <= r.pagination.totalPages ==> |r.data| == Min(limit, |rows| - Offset(page, limit)))
  {
    var s := NewestFirst(rows);
    PageArithmetic(|rows|, page, limit);
    WindowSize(s, Offset(page, limit), limit);
  }

  /** Total pages is zero exactly for an empty table. */
  lemma TotalPagesZero(rows: seq<Contact>, limit: int)
    requires limit >= 1
    ensures Page(rows, 1, limit).pagination.totalPages == 0 <==> rows == []
  {
  }

  /** Pages 1..k laid end to end. */
  function FirstPages(rows: seq<Contact>, limit: int, k: nat): seq<Contact>
    requires limit >= 1
  {
    if k == 0 then [] else FirstPages(rows, limit, k - 1) + Page(rows, k, limit).data
  }

  /** Windows 1..k of `limit` rows over `s`, laid end to end. */
  function FirstWindows(s: seq<Contact>, limit: int, k: nat): seq<Contact>
    requires limit >= 1
  {
    if k == 0 then [] else FirstWindows(s, limit, k - 1) + Window(s, Offset(k, limit), limit)
  }

  lemma {:induction false} FirstPagesAreWindows(rows: seq<Contact>, limit: int, k: nat)
    requires limit >= 1
    ensures FirstPages(rows, limit, k) == FirstWindows(NewestFirst(rows), limit, k)
  {
    if k > 0 {
      FirstPagesAreWindows(rows, limit, k - 1);
    }
  }

  /** A window placed right after a prefix extends that prefix. */
  lemma WindowExtendsPrefix(s: seq<Contact>, offset: int, limit: nat)
    requires offset >= 0
    ensures s[..Min(offset, |s|)] + Window(s, offset, limit) == s[..Min(offset + limit, |s|)]
  {
    if offset < |s| {
      var b := Min(offset + limit, |s|);
      assert s[..offset] + s[offset..b] == s[..b];
    }
  }

  lemma OffsetStep(page: int, limit: int)
    ensures Offset(page + 1, limit) == Offset(page, limit) + limit
  {
  }

  lemma {:induction false} FirstWindowsArePrefix(s: seq<Contact>, limit: int, k: nat)
    requires limit >= 1
    ensures FirstWindows(s, limit, k) == s[..Min(Offset(k + 1, limit), |s|)]
  {
    if k == 0 {
      assert Offset(1, limit) == 0;
    } else {
      FirstWindowsArePrefix(s, limit, k - 1);
      OffsetStep(k, limit);
      MulMonotone(0, k - 1, limit);
      WindowExtendsPrefix(s, Offset(k, limit), limit);
    }
  }

  /**
   * Paging partitions the listing: pages 1..totalPages laid end to end are
   * every row exactly once, newest first.
   */
  lemma PagesPartitionTable(rows: seq<Contact>, limit: int)
    requires limit >= 1
    ensures var pages := Page(rows, 1, limit).pagination.totalPages;
      FirstPages(rows, limit, pages) == NewestFirst(rows)
      && multiset(FirstPages(rows, limit, pages)) == multiset(rows)
  {
    var q := CeilDiv(|rows|, limit);
    FirstPagesAreWindows(rows, limit, q);
    var s := NewestFirst(rows);
    FirstWindowsArePrefix(s, limit, q);
    assert Offset(q + 1, limit) == q * limit >= |s|;
    assert s[..|s|] == s;
  }

  /** The first row of the first page is at least as new as every row in the table. */
  lemma NewestOnFirstPage(rows: seq<Contact>, limit: int, c: Contact)
    requires limit >= 1 && c in rows
    ensures var data := Page(rows, 1, limit).data;
      data != [] && data[0].createdAt >= c.createdAt
  {
    var s := NewestFirst(rows);
    assert c in multiset(s);
    var k :| 0 <= k < |s| && s[k] == c;
    assert Page(rows, 1, limit).data[0] == s[0];
  }

  /** A row strictly newer than all others is the first row of the first page. */
  lemma StrictlyNewestComesFirst(rows: seq<Contact>, limit: int, c: Contact)
    requires limit >= 1 && c in rows
    requires forall d :: d in rows && d != c ==> d.createdAt < c.createdAt
    ensures Page(rows, 1, limit).data[0] == c
  {
    NewestOnFirstPage(rows, limit, c);
  }

  /** Twenty-five rows in pages of ten: 10, 10 and 5 rows, three pages, and page 4 is empty. */
  lemma PagingOfTwentyFive(rows: seq<Contact>)
    requires |rows| == 25
    ensures Page(rows, 1, 10).pagination.totalPages == 3
    ensures |Page(rows, 1, 10).data| == 10
    ensures |Page(rows, 2, 10).data| == 10
    ensures |Page(rows, 3, 10).data| == 5
    ensures Page(rows, 4, 10).data == []
  {
    PageSize(rows, 1, 10);
    PageSize(rows, 2, 10);
    PageSize(rows, 3, 10);
    PageSize(rows, 4, 10);
  }

  // ---------------------------------------------------------------------------
  // The repository

  const TABLE_FULL_MESSAGE: JsString := Lit("database or disk is full")
  const DATATYPE_MISMATCH_MESSAGE: JsString := Lit("datatype mismatch")

  /**
   * Whether a number bound to `LIMIT` or `OFFSET` is accepted. The driver
   * binds a JavaScript number as a REAL, and the engine turns it into an
   * integer only when it lies strictly between the smallest and the largest
   * 64-bit integer; any other value stops the statement with SQLITE_MISMATCH.
   */
  predicate BindsAsInteger(x: int) {
    -MAX_ROWID < x < MAX_ROWID
  }

  /**
   * What `findAll` yields: an error the database raises, "datatype mismatch"
   * when the limit or the offset `(page - 1) * limit` is out of the 64-bit
   * range, or the page.
   */
  function Listed(rows: seq<Contact>, page: int, limit: int, engineError: Option<JsString>): (r: Result<PageResult, JsString>)
    requires limit >= 1
    ensures r.Success? <==> engineError.None? && limit < MAX_ROWID && -MAX_ROWID < (page - 1) * limit < MAX_ROWID
    ensures engineError.None? && r.Failure? ==> r.error == DATATYPE_MISMATCH_MESSAGE
    ensures r.Success? ==> r.value == Page(rows, page, limit) && r.value.pagination.page == page
  {
    if engineError.Some? then Failure(engineError.value)
    else if !BindsAsInteger(limit) || !BindsAsInteger(Offset(page, limit)) then Failure(DATATYPE_MISMATCH_MESSAGE)
    else Success(Page(rows, page, limit))
  }

  /**
   * What `create` yields when the counter stands at `nextId`: an error the
   * database raises, SQLITE_FULL once the rowids are used up, or the row as
   * read back by its new id.
   */
  function Inserted(nextId: int, s: Submission, ipAddress: Option<JsString>, now: Timestamp,
                    engineError: Option<JsString>): (r: Result<Contact, JsString>)
    ensures r.Success? <==> engineError.None? && nextId <= MAX_ROWID
    ensures r.Success? ==>
      && r.value.id == nextId && r.value.createdAt == now && r.value.ipAddress == ipAddress
      && Submission(r.value.name, r.value.email, r.value.message) == s
  {
    if engineError.Some? then Failure(engineError.value)
    else if nextId > MAX_ROWID then Failure(TABLE_FULL_MESSAGE)
    else Success(Contact(nextId, s.name, s.email, s.message, ipAddress, now))
  }

  /**
   * What `create` returns: the INSERT's outcome, unless the SELECT that reads
   * the new row back raises `readError`, which then propagates although the
   * row is already stored.
   */
  function Created(nextId: int, s: Submission, ipAddress: Option<JsString>, now: Timestamp,
                   engineError: Option<JsString>, readError: Option<JsString>): (r: Result<Contact, JsString>)
    ensures r.Success? <==> Inserted(nextId, s, ipAddress, now, engineError).Success? && readError.None?
    ensures r.Success? || Inserted(nextId, s, ipAddress, now, engineError).Failure? ==>
      r == Inserted(nextId, s, ipAddress, now, engineError)
    ensures Inserted(nextId, s, ipAddress, now, engineError).Success? && readError.Some? ==>
      r == Failure(readError.value)
  {
    match Inserted(nextId, s, ipAddress, now, engineError)
    case Failure(e) => Failure(e)
    case Success(c) => if readError.Some? then Failure(readError.value) else Success(c)
  }

  /** The row `WHERE id = ?` selects for a bound key, if any. */
  function Selected(rows: seq<Contact>, key: SqlValue): (r: Option<Contact>)
    ensures r.Some? ==> r.value in rows && Some(r.value.id) == KeyOf(key)
  {
    match KeyOf(key)
    case None => None
    case Some(id) => Lookup(rows, id)
  }

  class ContactTable {
    /** The rows, in rowid order. */
    var rows: seq<Contact>
    /** One more than the largest id ever assigned (`sqlite_sequence`). */
    var nextId: int
    /** Every id ever assigned, deleted rows included. */
    ghost var issued: set<int>

    ghost predicate Valid()
      reads this
    {
      && 1 <= nextId <= MAX_ROWID + 1
      && (forall i :: i in issued ==> 1 <= i < nextId)
      && (forall k :: 0 <= k < |rows| ==> rows[k].id in issued)
      && IdsAscending(rows)
    }

    /** The table as `CREATE TABLE IF NOT EXISTS` leaves it on first use. */
    constructor ()
      ensures Valid() && rows == [] && nextId == 1 && issued == {}
    {
      rows := [];
      nextId := 1;
      issued := {};
    }

    /**
     * `create({ name, email, message, ipAddress })`: INSERT, then read the row
     * back by its new id. `now` is the database clock; `engineError` is an
     * error the INSERT raises and `readError` one the read-back raises, if any.
     * The table changes exactly when the INSERT succeeds, whatever the
     * read-back then does.
     */
    method Create(s: Submission, ipAddress: Option<JsString>, now: Timestamp,
                  engineError: Option<JsString>, readError: Option<JsString>)
      returns (r: Result<Contact, JsString>)
      requires Valid()
      modifies this
      ensures Valid()
      ensures r == Created(old(nextId), s, ipAddress, now, engineError, readError)
      ensures Inserted(old(nextId), s, ipAddress, now, engineError).Failure? ==>
        rows == old(rows) && nextId == old(nextId) && issued == old(issued)
      ensures Inserted(old(nextId), s, ipAddress, now, engineError).Success? ==>
        var c := Contact(old(nextId), s.name, s.email, s.message, ipAddress, now);
        && rows == old(rows) + [c]
        && nextId == old(nextId) + 1
        && (forall i :: i in old(issued) ==> i < c.id)
        && issued == old(issued) + {c.id}
        && Lookup(rows, c.id) == Some(c)
      ensures r.Success? ==> r.value == Contact(old(nextId), s.name, s.email, s.message, ipAddress, now)
    {
      if engineError.Some? {
        return Failure(engineError.value);
      }
      if nextId > MAX_ROWID {
        return Failure(TABLE_FULL_MESSAGE);
      }
      var id := nextId;
      var row := Contact(id, s.name, s.email, s.message, ipAddress, now);
      rows := rows + [row];
      issued := issued + {id};
      nextId := nextId + 1;
      LookupFindsRow(rows, |rows| - 1);
      var found := FindById(IntegerValue(id), readError);
      if found.Failure? {
        return Failure(found.error);
      }
      r := Success(found.value.value);
    }

    /** `findById(id)`: the row whose id the key selects, or nothing; never an error of its own. */
    method FindById(key: SqlValue, engineError: Option<JsString>) returns (r: Result<Option<Contact>, JsString>)
      requires Valid()
      ensures engineError.Some? ==> r == Failure(engineError.value)
      ensures engineError.None? ==> r.Success?
      ensures r.Success? ==> r.value == Selected(rows, key)
    {
      if engineError.Some? {
        return Failure(engineError.value);
      }
      match KeyOf(key)
      case None => r := Success(None);
      case Some(id) => r := Success(Lookup(rows, id));
    }

    /** `findAll({ page = 1, limit = 20 })`. */
    method FindAll(page: Option<int>, limit: Option<int>, engineError: Option<JsString>)
      returns (r: Result<PageResult, JsString>)
      requires Valid()
      requires limit.None? || limit.value >= 1
      ensures engineError.Some? ==> r == Failure(engineError.value)
      ensures
        var p := if page.Some? then page.value else DEFAULT_PAGE;
        var l := if limit.Some? then limit.value else DEFAULT_LIMIT;
        && r == Listed(rows, p, l, engineError)
        && (engineError.None? ==> (r.Success? <==> BindsAsInteger(l) && BindsAsInteger(Offset(p, l))))
        && (r.Success? ==> r.value == Page(rows, p, l))
    {
      if engineError.Some? {
        return Failure(engineError.value);
      }
      var p := if page.Some? then page.value else DEFAULT_PAGE;
      var l := if limit.Some? then limit.value else DEFAULT_LIMIT;
      var offset := Offset(p, l);
      if !BindsAsInteger(l) || !BindsAsInteger(offset) {
        return Failure(DATATYPE_MISMATCH_MESSAGE);
      }
      r := Success(Page(rows, p, l));
    }

    /** `deleteById(id)`: whether a row was removed. */
    method DeleteById(key: SqlValue, engineError: Option<JsString>) returns (r: Result<bool, JsString>)
      requires Valid()
      modifies this
      ensures Valid()
      ensures nextId == old(nextId) && issued == old(issued)
      ensures engineError.Some? ==> r == Failure(engineError.value) && rows == old(rows)
      ensures engineError.None? ==> r.Success?
      ensures r.Success? ==>
        match KeyOf(key)
        case None => !r.value && rows == old(rows)
        case Some(id) => (r.value <==> Lookup(old(rows), id).Some?) && rows == Without(old(rows), id)
    {
      if engineError.Some? {
        return Failure(engineError.value);
      }
      match KeyOf(key)
      case None =>
        r := Success(false);
      case Some(id) =>
        r := Success(Lookup(rows, id).Some?);
        WithoutKeepsOrder(rows, id);
        rows := Without(rows, id);
    }
  }
}
