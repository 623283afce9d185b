/** Configuration trees, and the decimal indices that address array elements in them. */
module Json {
  import opened Basics

  datatype Json =
    | Null
    | Bool(b: bool)
    | Num(text: string)
    | Str(s: string)
    | Arr(items: seq<Json>)
    | Obj(fields: map<string, Json>)

  type Path = seq<string>

  const DIGITS := "0123456789"

  function Itoa(n: nat): (s: string)
    ensures s != "" && AllDigits(s)
  {
    if n < 10 then [DIGITS[n]] else Itoa(n / 10) + [DIGITS[n % 10]]
  }

  predicate IsDigit(c: char) {
    '0' <= c <= '9'
  }

  predicate AllDigits(s: string) {
    forall i :: 0 <= i < |s| ==> IsDigit(s[i])
  }

  function ValueOf(s: string): nat
    requires AllDigits(s)
  {
    if s == "" then 0
    else ValueOf(s[..|s| - 1]) * 10 + (s[|s| - 1] - '0') as nat
  }

  /** strconv.Atoi: an optional sign and at least one digit. */
  function Atoi(s: string): Option<int> {
    var signed := s != "" && (s[0] == '+' || s[0] == '-');
    var t := if signed then s[1..] else s;
    if t == "" || !AllDigits(t) then None
    else Some(if signed && s[0] == '-' then -(ValueOf(t) as int) else ValueOf(t))
  }

  lemma DigitValue(d: nat)
    requires d < 10
    ensures IsDigit(DIGITS[d]) && (DIGITS[d] - '0') as nat == d
  {
  }

  lemma {:induction false} ValueOfItoa(n: nat)
    ensures ValueOf(Itoa(n)) == n
  {
    DigitValue(n % 10);
    if n < 10 {
      assert Itoa(n)[..0] == "";
    } else {
      ValueOfItoa(n / 10);
      assert Itoa(n)[..|Itoa(n)| - 1] == Itoa(n / 10);
    }
  }

  /** Printed indices read back as themselves. */
  lemma AtoiItoa(n: nat)
    ensures Atoi(Itoa(n)) == Some(n)
    ensures '.' !in Itoa(n)
  {
    ValueOfItoa(n);
    assert IsDigit(Itoa(n)[0]);
  }

  /** A sign is read, and so are leading zeros. */
  lemma AtoiReads(n: nat)
    ensures Atoi("+" + Itoa(n)) == Some(n) && Atoi("-" + Itoa(n)) == Some(0 - n as int) && Atoi("0" + Itoa(n)) == Some(n)
    ensures Atoi("") == None && Atoi("+") == None && Atoi("-") == None
  {
    hide Itoa, ValueOf;
    var s := Itoa(n);
    ValueOfItoa(n);
    LeadingZero(s);
    assert ("+" + s)[1..] == s && ("-" + s)[1..] == s;
    assert ("0" + s)[0] == '0';
  }

  lemma {:induction false} LeadingZero(s: string)
    requires AllDigits(s)
    ensures AllDigits("0" + s) && ValueOf("0" + s) == ValueOf(s)
    decreases |s|
  {
    if s == "" {
      assert "0" + s == "0" && "0"[..0] == "";
    } else {
      LeadingZero(s[..|s| - 1]);
      assert ("0" + s)[..|s|] == "0" + s[..|s| - 1];
    }
  }

  /** The array index a path segment names, if any. */
  function IndexIn(k: string, items: seq<Json>): (i: Option<nat>)
    ensures i.Some? ==> i.value < |items|
  {
    var i := Atoi(k);
    if i.Some? && 0 <= i.value < |items| then Some(i.value) else None
  }

  /** Walk maps by key and arrays by decimal index. */
  function GetPath(t: Json, p: Path): Option<Json>
    decreases |p|
  {
    if p == [] then Some(t)
    else
      match t
      case Obj(f) => if p[0] in f then GetPath(f[p[0]], p[1..]) else None
      case Arr(items) =>
        var i := IndexIn(p[0], items);
        if i.Some? then GetPath(items[i.value], p[1..]) else None
      case _ => None
  }

  lemma {:induction false} GetPathAppend(t: Json, p: Path, q: Path)
    ensures GetPath(t, p + q) == if GetPath(t, p).Some? then GetPath(GetPath(t, p).value, q) else None
    decreases |p|
  {
    if p == [] {
      assert p + q == q;
    } else {
      assert (p + q)[0] == p[0] && (p + q)[1..] == p[1..] + q;
      match t {
        case Obj(f) => if p[0] in f { GetPathAppend(f[p[0]], p[1..], q); }
        case Arr(items) => if IndexIn(p[0], items).Some? { GetPathAppend(items[IndexIn(p[0], items).value], p[1..], q); }
        case _ =>
      }
    }
  }

  /** Array segments of a path are written the way indices are printed. */
  predicate CanonicalPath(t: Json, p: Path)
    decreases |p|
  {
    p == [] ||
    match t
    case Obj(f) => p[0] in f ==> CanonicalPath(f[p[0]], p[1..])
    case Arr(items) =>
      var i := IndexIn(p[0], items);
      i.Some? ==> p[0] == Itoa(i.value) && CanonicalPath(items[i.value], p[1..])
    case _ => true
  }
}
