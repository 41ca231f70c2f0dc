/**
 * The two CVM registries the pipelines read, and the `_clean` key columns
 * both pipelines add to them in place: the fund registry (registro_fundo)
 * and the manager registry (cad_adm_cart_pj).
 */
module Registries {
  import opened Wrappers
  import opened Text
  import opened Cells
  import opened Cnpj
  import opened Relational

  /** A fund registry row: the columns the pipelines read. */
  datatype FundEntry = FundEntry(
    fund: IdCell,                    // CNPJ_Fundo
    administratorId: IdCell,         // CNPJ_Administrador
    administrator: Option<string>,   // Administrador
    gestorId: IdCell,                // CPF_CNPJ_Gestor
    gestor: Option<string>)          // Gestor

  /** A manager registry row. */
  datatype ManagerEntry = ManagerEntry(
    cnpj: IdCell,                    // CNPJ
    name: Option<string>,            // DENOM_SOCIAL
    city: Option<string>,            // MUN
    state: Option<string>,           // UF
    street: Option<string>,          // LOGRADOURO
    district: Option<string>,        // BAIRRO
    zip: Option<string>)             // CEP

  /**
   * A `_clean` key column: not yet added, digit strings (the dashboard) or
   * `to_numeric` integers (the batch script).
   */
  datatype KeyColumn = Absent | TextKeys(texts: seq<string>) | NumericKeys(numbers: seq<Option<nat>>)

  /** `astype(str).str.replace('[^0-9]', '')`. */
  function DigitsOf(c: IdCell): (r: string)
    ensures AllDigits(r)
    ensures c.IdNull? ==> r == []
  {
    assert KeepDigits("nan") == [];
    KeepDigits(PyStr(c))
  }

  /**
   * `str.strip().str.upper()`: the part of the name between the whitespace
   * at its two ends, in capitals; a missing name stays missing.
   */
  function CleanName(n: Option<string>): (r: Option<string>)
    ensures n.None? <==> r.None?
    ensures r.Some? ==> r.value == [] || (!IsSpace(r.value[0]) && !IsSpace(r.value[|r.value| - 1]))
    ensures r.Some? ==> Upper(r.value) == r.value
    ensures r.Some? ==>
      exists i, j :: (0 <= i <= j <= |n.value| && r.value == Upper(n.value[i..j])
                      && (forall k :: 0 <= k < i ==> IsSpace(n.value[k]))
                      && (forall k :: j <= k < |n.value| ==> IsSpace(n.value[k])))
  {
    match n
    case None => None
    case Some(s) =>
      CleanedText(s);
      Some(Upper(Strip(s)))
  }

  /** The facts behind `CleanName`'s contract, for one text. */
  lemma CleanedText(s: string)
    ensures var u := Upper(Strip(s));
      && (u == [] || (!IsSpace(u[0]) && !IsSpace(u[|u| - 1])))
      && Upper(u) == u
      && exists i, j :: (0 <= i <= j <= |s| && u == Upper(s[i..j])
                         && (forall k :: 0 <= k < i ==> IsSpace(s[k]))
                         && (forall k :: j <= k < |s| ==> IsSpace(s[k])))
  {
    StripIsTrimmedSlice(s);
    if Strip(s) != [] { UpperEnds(Strip(s)); }
    UpperIdempotent(Strip(s));
  }

  /** Cleaning a cleaned name changes nothing. */
  lemma CleanNameIdempotent(n: Option<string>)
    ensures CleanName(CleanName(n)) == CleanName(n)
  {
    if n.Some? {
      var s := Strip(n.value);
      StripIdempotent(n.value);
      UpperKeepsStripped(s);
      UpperIdempotent(s);
    }
  }

  /** Upper-casing a stripped text leaves nothing to strip. */
  lemma UpperKeepsStripped(s: string)
    requires Strip(s) == s
    ensures Strip(Upper(s)) == Upper(s)
  {
    StripIsTrimmedSlice(s);
    var u := Upper(s);
    if s != [] {
      UpperEnds(s);
      assert TrimLeft(u) == u;
      assert TrimRight(u) == u;
    }
  }

  /** A key column paired with the registry rows it was computed from. */
  function KeyedRows<K(!new), E(!new)>(keys: seq<K>, rows: seq<E>): (r: seq<(K, E)>)
    requires |keys| == |rows|
    ensures |r| == |rows|
    ensures forall j :: 0 <= j < |r| ==> r[j] == (keys[j], rows[j])
  {
    seq(|rows|, j requires 0 <= j < |rows| => (keys[j], rows[j]))
  }

  function PairKey<K, E>(p: (K, E)): K { p.0 }

  /**
   * `left.merge(registry, left_on=..., right_on=<key column>, how='left')`:
   * every left row is kept, once per matching registry row, or once with no
   * registry row when nothing matches.
   */
  function JoinRegistry<L(!new), E(!new), K(==,!new)>(left: seq<L>, keys: seq<K>, rows: seq<E>, lk: L -> K): (r: seq<(L, Option<E>)>)
    requires |keys| == |rows|
    ensures |r| >= |left|
    ensures forall i :: 0 <= i < |r| ==> r[i].0 in left
    ensures forall i :: 0 <= i < |r| && r[i].1.Some? ==>
      exists j :: 0 <= j < |rows| && rows[j] == r[i].1.value && keys[j] == lk(r[i].0)
    ensures forall i :: 0 <= i < |r| && r[i].1.None? ==> forall j :: 0 <= j < |keys| ==> keys[j] != lk(r[i].0)
  {
    var right := KeyedRows(keys, rows);
    var joined := LeftJoin(left, right, lk, PairKey);
    var r := seq(|joined|, i requires 0 <= i < |joined| =>
      (joined[i].0, match joined[i].1 case Some(p) => Some(p.1) case None => None));
    assert forall i :: 0 <= i < |r| && r[i].1.Some? ==>
      exists j :: 0 <= j < |rows| && rows[j] == r[i].1.value && keys[j] == lk(r[i].0) by {
      forall i | 0 <= i < |r| && r[i].1.Some?
        ensures exists j :: 0 <= j < |rows| && rows[j] == r[i].1.value && keys[j] == lk(r[i].0)
      {
        var p := joined[i].1.value;
        var j :| 0 <= j < |right| && right[j] == p;
        assert rows[j] == r[i].1.value && keys[j] == lk(r[i].0);
      }
    }
    assert forall i :: 0 <= i < |r| && r[i].1.None? ==> forall j :: 0 <= j < |keys| ==> keys[j] != lk(r[i].0) by {
      forall i, j | 0 <= i < |r| && r[i].1.None? && 0 <= j < |keys| ensures keys[j] != lk(r[i].0) {
        assert right[j] in right;
      }
    }
    r
  }

  /** Some left row of the merge met no registry row. */
  predicate SomeUnmatched<L, E>(joined: seq<(L, Option<E>)>) {
    exists i :: 0 <= i < |joined| && joined[i].1.None?
  }

  /**
   * A left merge that leaves some row unmatched fills it with NaN, which
   * turns an int64 column into float64; text and missing cells are kept.
   */
  function Widened(c: IdCell, widen: bool): (r: IdCell)
    ensures !widen ==> r == c
    ensures r.IdNull? <==> c.IdNull?
    ensures IsPresentNonZero(r) <==> IsPresentNonZero(c)
    ensures PyStr(r) == PyStr(c) || (widen && c.IdInt? && r == IdFloat(c.n))
  {
    if widen && c.IdInt? then IdFloat(c.n) else c
  }

  /** Every left row survives the merge, alongside each registry row whose key matches. */
  lemma JoinRegistryKeepsRows<L(!new), E(!new), K(!new)>(left: seq<L>, keys: seq<K>, rows: seq<E>, lk: L -> K, i: nat)
    requires |keys| == |rows| && i < |left|
    ensures exists o :: (left[i], o) in JoinRegistry(left, keys, rows, lk)
    ensures forall j :: 0 <= j < |rows| && keys[j] == lk(left[i]) ==> (left[i], Some(rows[j])) in JoinRegistry(left, keys, rows, lk)
  {
    var right := KeyedRows(keys, rows);
    var joined := LeftJoin(left, right, lk, PairKey);
    LeftJoinKeepsRows(left, right, lk, PairKey, i);
    var o :| (left[i], o) in joined;
    JoinedRowKept(left, keys, rows, lk, (left[i], o));
    forall j | 0 <= j < |rows| && keys[j] == lk(left[i])
      ensures (left[i], Some(rows[j])) in JoinRegistry(left, keys, rows, lk)
    {
      assert right[j] in right && PairKey(right[j]) == lk(left[i]);
      JoinedRowKept(left, keys, rows, lk, (left[i], Some(right[j])));
    }
  }

  /** A left row whose key no registry row has is merged with nulls. */
  lemma JoinRegistryUnmatched<L(!new), E(!new), K(!new)>(left: seq<L>, keys: seq<K>, rows: seq<E>, lk: L -> K, p: (L, Option<E>))
    requires |keys| == |rows| && p in JoinRegistry(left, keys, rows, lk)
    requires forall j :: 0 <= j < |keys| ==> keys[j] != lk(p.0)
    ensures p.1.None?
  {
    var r := JoinRegistry(left, keys, rows, lk);
    var k :| 0 <= k < |r| && r[k] == p;
  }

  /** A row of the keyed merge appears in the registry merge with its registry row unkeyed. */
  lemma JoinedRowKept<L(!new), E(!new), K(!new)>(left: seq<L>, keys: seq<K>, rows: seq<E>, lk: L -> K, x: (L, Option<(K, E)>))
    requires |keys| == |rows|
    requires x in LeftJoin(left, KeyedRows(keys, rows), lk, PairKey)
    ensures (x.0, match x.1 case Some(p) => Some(p.1) case None => None) in JoinRegistry(left, keys, rows, lk)
  {
    var joined := LeftJoin(left, KeyedRows(keys, rows), lk, PairKey);
    var r := JoinRegistry(left, keys, rows, lk);
    var m :| 0 <= m < |joined| && joined[m] == x;
    assert r[m] == (x.0, match x.1 case Some(p) => Some(p.1) case None => None);
  }

  /** The fund registry table, which both pipelines extend with `CNPJ_Fundo_clean`. */
  class FundRegistry {
    var rows: seq<FundEntry>
    var cleanId: KeyColumn   // CNPJ_Fundo_clean

    constructor (rows: seq<FundEntry>)
      ensures this.rows == rows && cleanId == Absent
    {
      this.rows := rows;
      cleanId := Absent;
    }

    /** The key column holds one key per row. */
    predicate HasTextKeys()
      reads this
    {
      cleanId.TextKeys? && |cleanId.texts| == |rows|
    }

    predicate HasNumericKeys()
      reads this
    {
      cleanId.NumericKeys? && |cleanId.numbers| == |rows|
    }

    /** The dashboard's digit-string key (streamlit_app_dynamic.py:219, 223). */
    method AddTextIds()
      modifies this
      ensures rows == old(rows)
      ensures HasTextKeys()
      ensures forall j :: 0 <= j < |rows| ==> cleanId.texts[j] == DigitsOf(rows[j].fund)
    {
      cleanId := TextKeys(FundTextIds(rows));
    }

    /** The batch script's integer key (analyze_offshore_managers.py:71, 75). */
    method AddNumericIds()
      modifies this
      ensures rows == old(rows)
      ensures HasNumericKeys()
      ensures forall j :: 0 <= j < |rows| ==> cleanId.numbers[j] == NumericId(rows[j].fund)
    {
      cleanId := NumericKeys(FundNumericIds(rows));
    }
  }

  /** The manager registry table, extended with `CNPJ_clean` and `DENOM_SOCIAL_clean`. */
  class ManagerRegistry {
    var rows: seq<ManagerEntry>
    var cleanId: KeyColumn                        // CNPJ_clean
    var cleanName: Option<seq<Option<string>>>    // DENOM_SOCIAL_clean

    constructor (rows: seq<ManagerEntry>)
      ensures this.rows == rows && cleanId == Absent && cleanName == None
    {
      this.rows := rows;
      cleanId := Absent;
      cleanName := None;
    }

    predicate HasTextKeys()
      reads this
    {
      cleanId.TextKeys? && |cleanId.texts| == |rows|
    }

    predicate HasNumericKeys()
      reads this
    {
      cleanId.NumericKeys? && |cleanId.numbers| == |rows|
    }

    predicate HasCleanNames()
      reads this
    {
      cleanName.Some? && |cleanName.value| == |rows|
    }

    /** Digits of the registry CNPJ (streamlit_app_dynamic.py:250). */
    method AddTextIds()
      modifies this
      ensures rows == old(rows) && cleanName == old(cleanName)
      ensures HasTextKeys()
      ensures forall j :: 0 <= j < |rows| ==> cleanId.texts[j] == DigitsOf(rows[j].cnpj)
    {
      cleanId := TextKeys(ManagerDigitIds(rows));
    }

    /** `str.zfill(14).str[:14]` of the key column (streamlit_app_dynamic.py:273). */
    method PadTextIds()
      requires HasTextKeys()
      modifies this
      ensures rows == old(rows) && cleanName == old(cleanName)
      ensures HasTextKeys()
      ensures forall j :: 0 <= j < |rows| ==> cleanId.texts[j] == Pad14(old(cleanId.texts[j]))
    {
      var texts := cleanId.texts;
      cleanId := TextKeys(seq(|texts|, j requires 0 <= j < |texts| => Pad14(texts[j])));
    }

    /** The name key of the name-based join (streamlit_app_dynamic.py:297). */
    method AddCleanNames()
      modifies this
      ensures rows == old(rows) && cleanId == old(cleanId)
      ensures HasCleanNames()
      ensures forall j :: 0 <= j < |rows| ==> cleanName.value[j] == CleanName(rows[j].name)
    {
      cleanName := Some(ManagerCleanNames(rows));
    }

    /** The batch script's integer key (analyze_offshore_managers.py:96, 100). */
    method AddNumericIds()
      modifies this
      ensures rows == old(rows) && cleanName == old(cleanName)
      ensures HasNumericKeys()
      ensures forall j :: 0 <= j < |rows| ==> cleanId.numbers[j] == NumericId(rows[j].cnpj)
    {
      cleanId := NumericKeys(ManagerNumericIds(rows));
    }
  }

  /** The dashboard's fund keys, as a function of the registry rows. */
  function FundTextIds(rows: seq<FundEntry>): (r: seq<string>)
    ensures |r| == |rows| && forall j :: 0 <= j < |rows| ==> r[j] == DigitsOf(rows[j].fund)
  {
    seq(|rows|, j requires 0 <= j < |rows| => DigitsOf(rows[j].fund))
  }

  function FundNumericIds(rows: seq<FundEntry>): (r: seq<Option<nat>>)
    ensures |r| == |rows| && forall j :: 0 <= j < |rows| ==> r[j] == NumericId(rows[j].fund)
  {
    seq(|rows|, j requires 0 <= j < |rows| => NumericId(rows[j].fund))
  }

  function ManagerDigitIds(rows: seq<ManagerEntry>): (r: seq<string>)
    ensures |r| == |rows| && forall j :: 0 <= j < |rows| ==> r[j] == DigitsOf(rows[j].cnpj)
  {
    seq(|rows|, j requires 0 <= j < |rows| => DigitsOf(rows[j].cnpj))
  }

  /** The dashboard's registry ids after lines 250 and 273: always fourteen digits. */
  function ManagerTextIds(rows: seq<ManagerEntry>): (r: seq<string>)
    ensures |r| == |rows| && forall j :: 0 <= j < |rows| ==> r[j] == RegistryId(rows[j].cnpj)
    ensures forall j :: 0 <= j < |r| ==> |r[j]| == CnpjWidth && AllDigits(r[j])
  {
    seq(|rows|, j requires 0 <= j < |rows| => RegistryId(rows[j].cnpj))
  }

  function ManagerNumericIds(rows: seq<ManagerEntry>): (r: seq<Option<nat>>)
    ensures |r| == |rows| && forall j :: 0 <= j < |rows| ==> r[j] == NumericId(rows[j].cnpj)
  {
    seq(|rows|, j requires 0 <= j < |rows| => NumericId(rows[j].cnpj))
  }

  function ManagerCleanNames(rows: seq<ManagerEntry>): (r: seq<Option<string>>)
    ensures |r| == |rows| && forall j :: 0 <= j < |rows| ==> r[j] == CleanName(rows[j].name)
  {
    seq(|rows|, j requires 0 <= j < |rows| => CleanName(rows[j].name))
  }
}
