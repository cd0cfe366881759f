/**
 * The customer record (`Customer`, `MinMax`) and `Customer.parse`, which
 * turns one tab-separated line of the customer file into a record.
 *
 * Python's `float()` and `int()` are not modelled character by character:
 * the parser takes them as parameters `toReal` / `toInt`, partial functions
 * that answer `None` where Python raises `ValueError`.
 */
module Customers {
  import opened Wrappers
  import opened Text
  import opened Enums

  /** A closed range of whole numbers; `min <= max` is not enforced by the parser. */
  datatype MinMax = MinMax(min: int, max: int)

  datatype Customer = Customer(
    name: string,
    area: Option<Area>,          // `None` when the area key is unknown
    standard: Option<Standard>,  // `None` when the standard key is unknown
    weed: real,
    meth: real,
    coca: real,
    budget: MinMax,              // weekly budget, currency prefix stripped
    orders: MinMax,              // weekly orders
    additional: string)          // every field after the tenth, re-joined by tabs

  /**
   * Why a line is not a record, in Python's evaluation order: the first
   * field index that is absent (`IndexError`) or whose number does not
   * convert (`ValueError`).
   */
  datatype ParseError = MissingField(index: nat) | BadNumber(index: nat)

  /** `s[1:]`: drops the currency prefix, whatever character it is. */
  function DropFirst(s: string): (r: string)
    ensures |s| > 0 ==> [s[0]] + r == s
    ensures |s| == 0 ==> r == ""
  {
    if |s| == 0 then "" else s[1..]
  }

  /** The key `Area.find` is given: the raw region upper-cased. */
  function AreaKey(raw: string): string {
    Upper(raw)
  }

  /** The key `Standard.find` is given: upper-cased, spaces turned into `_`. */
  function StandardKey(raw: string): string {
    ReplaceChar(Upper(raw), ' ', '_')
  }

  /** The fields of a line. */
  function Fields(line: string): seq<string> {
    Split(line, Tab)
  }

  /**
   * Whether field `k` (1 to 9) of `f` is present and, for the numeric
   * fields 3 to 9, converts: 3-5 as affinities, 6-7 as budgets after the
   * prefix, 8-9 as order counts.
   */
  predicate FieldOk(f: seq<string>, k: nat, toReal: string -> Option<real>, toInt: string -> Option<int>)
  {
    && k < |f|
    && (if k <= 2 then true
        else if k <= 5 then toReal(f[k]).Some?
        else if k <= 7 then toInt(DropFirst(f[k])).Some?
        else toInt(f[k]).Some?)
  }

  /** Fields 1 to 9 are all present and all numbers among them convert. */
  predicate AllFieldsOk(f: seq<string>, toReal: string -> Option<real>, toInt: string -> Option<int>)
  {
    && FieldOk(f, 1, toReal, toInt) && FieldOk(f, 2, toReal, toInt) && FieldOk(f, 3, toReal, toInt)
    && FieldOk(f, 4, toReal, toInt) && FieldOk(f, 5, toReal, toInt) && FieldOk(f, 6, toReal, toInt)
    && FieldOk(f, 7, toReal, toInt) && FieldOk(f, 8, toReal, toInt) && FieldOk(f, 9, toReal, toInt)
  }

  function RealField(f: seq<string>, k: nat, toReal: string -> Option<real>): Result<real, ParseError> {
    if k >= |f| then Failure(MissingField(k))
    else match toReal(f[k])
      case None => Failure(BadNumber(k))
      case Some(v) => Success(v)
  }

  function IntField(f: seq<string>, k: nat, prefixed: bool, toInt: string -> Option<int>): Result<int, ParseError> {
    if k >= |f| then Failure(MissingField(k))
    else match toInt(if prefixed then DropFirst(f[k]) else f[k])
      case None => Failure(BadNumber(k))
      case Some(v) => Success(v)
  }

  /** The record a line stands for once all of its fields are known to be good. */
  function Record(f: seq<string>, weed: real, meth: real, coca: real,
                  bmin: int, bmax: int, omin: int, omax: int): Customer
    requires |f| >= 10
  {
    Customer(f[0], FindArea(AreaKey(f[1])), FindStandard(StandardKey(f[2])),
             weed, meth, coca, MinMax(bmin, bmax), MinMax(omin, omax),
             Join(f[10..], Tab))
  }

  /**
   * `Customer.parse(line)`. It fails exactly when some field 1-9 is missing
   * or does not convert, reporting the first such field; otherwise every
   * field lands in its place. Unknown area or standard keys are not errors.
   */
  function Parse(line: string, toReal: string -> Option<real>, toInt: string -> Option<int>): (r: Result<Customer, ParseError>)
    ensures r.Success? <==> AllFieldsOk(Fields(line), toReal, toInt)
    ensures r.Failure? ==>
      && 1 <= r.error.index <= 9
      && !FieldOk(Fields(line), r.error.index, toReal, toInt)
      && (forall j :: 1 <= j < r.error.index ==> FieldOk(Fields(line), j, toReal, toInt))
      && (r.error.MissingField? <==> r.error.index == |Fields(line)|)
    ensures r.Success? ==>
      var f := Fields(line);
      && |f| >= 10
      && r.value == Record(f, toReal(f[3]).value, toReal(f[4]).value, toReal(f[5]).value,
                           toInt(DropFirst(f[6])).value, toInt(DropFirst(f[7])).value,
                           toInt(f[8]).value, toInt(f[9]).value)
  {
    var f := Fields(line);
    if |f| < 2 then Failure(MissingField(1))
    else if |f| < 3 then Failure(MissingField(2))
    else
      var weed :- RealField(f, 3, toReal);
      var meth :- RealField(f, 4, toReal);
      var coca :- RealField(f, 5, toReal);
      var bmin :- IntField(f, 6, true, toInt);
      var bmax :- IntField(f, 7, true, toInt);
      var omin :- IntField(f, 8, false, toInt);
      var omax :- IntField(f, 9, false, toInt);
      Success(Record(f, weed, meth, coca, bmin, bmax, omin, omax))
  }

  /** A line of fewer than ten fields never parses. */
  lemma ShortLineFails(line: string, toReal: string -> Option<real>, toInt: string -> Option<int>)
    requires |Fields(line)| < 10
    ensures Parse(line, toReal, toInt).Failure?
  {
    assert !FieldOk(Fields(line), 9, toReal, toInt);
  }

  /**
   * Reading back a line written field by field: when no field holds a tab
   * and the numeric fields convert, the parsed record carries exactly the
   * written fields, the currency prefix stripped from the budgets, and the
   * fields after the tenth re-joined as `additional` (empty for ten fields).
   */
  lemma {:induction false} ParseFields(fields: seq<string>, toReal: string -> Option<real>, toInt: string -> Option<int>)
    requires |fields| >= 10
    requires forall i :: 0 <= i < |fields| ==> Tab !in fields[i]
    requires forall k :: 3 <= k <= 5 ==> toReal(fields[k]).Some?
    requires forall k :: 6 <= k <= 7 ==> toInt(DropFirst(fields[k])).Some?
    requires forall k :: 8 <= k <= 9 ==> toInt(fields[k]).Some?
    ensures var r := Parse(Join(fields, Tab), toReal, toInt);
      && r.Success?
      && r.value.name == fields[0]
      && r.value.area == FindArea(Upper(fields[1]))
      && r.value.standard == FindStandard(ReplaceChar(Upper(fields[2]), ' ', '_'))
      && r.value.weed == toReal(fields[3]).value
      && r.value.meth == toReal(fields[4]).value
      && r.value.coca == toReal(fields[5]).value
      && r.value.budget == MinMax(toInt(DropFirst(fields[6])).value, toInt(DropFirst(fields[7])).value)
      && r.value.orders == MinMax(toInt(fields[8]).value, toInt(fields[9]).value)
      && r.value.additional == Join(fields[10..], Tab)
      && (|fields| == 10 ==> r.value.additional == "")
  {
    SplitJoin(fields, Tab);
    var f := Fields(Join(fields, Tab));
    assert f == fields;
    assert FieldOk(f, 3, toReal, toInt) && FieldOk(f, 4, toReal, toInt) && FieldOk(f, 5, toReal, toInt);
    assert FieldOk(f, 6, toReal, toInt) && FieldOk(f, 7, toReal, toInt);
    assert FieldOk(f, 8, toReal, toInt) && FieldOk(f, 9, toReal, toInt);
  }

  /** An unknown area key is stored as `None`; the line still parses. */
  lemma UnknownAreaIsKept(line: string, toReal: string -> Option<real>, toInt: string -> Option<int>)
    requires Parse(line, toReal, toInt).Success?
    requires forall a: Area :: AreaName(a) != Upper(Fields(line)[1])
    ensures Parse(line, toReal, toInt).value.area == None
  {
  }

  /** `Area.find(upper(raw))` finds `a` exactly when the upper-cased region is `a`'s name. */
  lemma AreaKeyFinds(raw: string, a: Area)
    ensures FindArea(AreaKey(raw)) == Some(a) <==> Upper(raw) == AreaName(a)
  {
    FindAreaName(a);
  }

  /**
   * `Standard.find(...)` finds `s` exactly when the upper-cased tier, with
   * spaces turned into `_`, is `s`'s name.
   */
  lemma StandardKeyFinds(raw: string, s: Standard)
    ensures FindStandard(StandardKey(raw)) == Some(s) <==> ReplaceChar(Upper(raw), ' ', '_') == StandardName(s)
  {
    FindStandardName(s);
  }

  lemma AreaNameIsUpper(a: Area)
    ensures IsUpper(AreaName(a))
  {
  }

  lemma StandardNameIsUpper(s: Standard)
    ensures IsUpper(StandardName(s))
  {
  }

  /** The region is matched ignoring ASCII case: any spelling of an area's name finds it. */
  lemma AreaKeyIgnoresCase(raw: string, a: Area)
    requires CaseVariant(raw, AreaName(a))
    ensures FindArea(AreaKey(raw)) == Some(a)
  {
    AreaNameIsUpper(a);
    UpperCaseVariant(raw, AreaName(a));
    FindAreaName(a);
  }

  /**
   * The tier is matched ignoring ASCII case, with a space standing for
   * `_`: any such spelling of a tier's name finds it.
   */
  lemma StandardKeyIgnoresCase(raw: string, s: Standard)
    requires CaseVariant(ReplaceChar(raw, ' ', '_'), StandardName(s))
    ensures FindStandard(StandardKey(raw)) == Some(s)
  {
    var v := ReplaceChar(raw, ' ', '_');
    StandardNameIsUpper(s);
    UpperCaseVariant(v, StandardName(s));
    var key, u := StandardKey(raw), Upper(raw);
    forall i | 0 <= i < |raw| ensures key[i] == Upper(v)[i] {
      if raw[i] != ' ' {
        assert v[i] == raw[i];
        assert u[i] != ' ';
      }
    }
    assert key == Upper(v);
    FindStandardName(s);
  }
}
