/** The Wi-Fi error source: one printable snapshot and one numeric code, set together. */
module ErrSource {

  const ES_NONE := 0
  const ES_NO_CREDS := 1
  const ES_IP_LOST := 2
  const ES_AUTH_EXPIRE := 3
  const ES_AUTH_FAIL := 4
  const ES_NO_AP := 5
  const ES_4WAY_TIMEOUT := 6
  const ES_ASSOC_EXPIRE := 7
  const ES_BEACON_TO := 8
  const ES_DISCONNECTED := 9

  const TABLE: seq<string> := [
    "NONE", "NO_CREDS", "IP_LOST", "AUTH_EXPIRE", "AUTH_FAIL",
    "NO_AP", "4WAY_TIMEOUT", "ASSOC_EXPIRE", "BEACON_TO", "DISCONNECTED"]

  const STR_MAX := 64

  predicate InRange(code: int) {
    0 <= code < |TABLE|
  }

  function ToString(code: int): string {
    if InRange(code) then TABLE[code] else "UNKNOWN"
  }

  function FindFrom(s: string, i: nat): int
    requires i <= |TABLE|
    decreases |TABLE| - i
  {
    if i == |TABLE| then ES_NONE else if TABLE[i] == s then i else FindFrom(s, i + 1)
  }

  /** The empty string also stands for NULL. */
  function ToEnum(s: string): int {
    if s == "" then ES_NONE else FindFrom(s, 0)
  }

  method StrToEnum(s: string) returns (code: int)
    ensures code == ToEnum(s)
  {
    if s == "" {
      return ES_NONE;
    }
    for i := 0 to |TABLE|
      invariant FindFrom(s, 0) == FindFrom(s, i)
    {
      if TABLE[i] == s {
        return i;
      }
    }
    code := ES_NONE;
  }

  /** The first n characters. C strings compare equal up to n exactly when these are equal. */
  function Upto(s: string, n: nat): string {
    if |s| <= n then s else s[..n]
  }

  datatype Snapshot = Snapshot(err: string, code: int)

  function Effective(s: string): string {
    if s == "" then "NONE" else s
  }

  predicate Stores(st: Snapshot, s: string) {
    Upto(st.err, STR_MAX) != Upto(Effective(s), STR_MAX)
  }

  function SetString(st: Snapshot, s: string): Snapshot {
    if Stores(st, s) then Snapshot(Upto(Effective(s), STR_MAX - 1), ToEnum(Effective(s))) else st
  }

  function SetEnum(st: Snapshot, code: int): Snapshot {
    SetString(st.(code := code), ToString(code))
  }

  class ErrSource {
    var err: string
    var last: int
    var subscribed: bool
    var notified: seq<string>   // what the subscriber was called with

    constructor ()
      ensures State() == Snapshot("NONE", ES_NONE) && !subscribed && notified == []
    {
      err, last, subscribed, notified := "NONE", ES_NONE, false, [];
    }

    function State(): Snapshot
      reads this
    {
      Snapshot(err, last)
    }

    method Set(s: string)
      modifies this
      ensures State() == SetString(old(State()), s) && subscribed == old(subscribed)
      ensures notified == old(notified) + if old(subscribed && Stores(State(), s)) then [err] else []
    {
      var t := if s == "" then "NONE" else s;
      if Upto(err, STR_MAX) == Upto(t, STR_MAX) {
        return;
      }
      err := Upto(t, STR_MAX - 1);
      last := StrToEnum(t);
      if subscribed {
        notified := notified + [err];
      }
    }

    method SetCode(code: int)
      modifies this
      ensures State() == SetEnum(old(State()), code) && subscribed == old(subscribed)
      ensures notified ==
              old(notified) + if old(subscribed && Stores(State(), ToString(code))) then [err] else []
    {
      last := code;
      Set(ToString(code));
    }

    method Subscribe()
      modifies this
      ensures State() == old(State()) && subscribed && notified == old(notified) + [err]
    {
      subscribed := true;
      notified := notified + [err];
    }
  }

  // ---- the pair agrees ----

  lemma {:induction false} FindFirst(s: string, i: nat, k: nat)
    requires i <= k < |TABLE| && TABLE[k] == s
    requires forall j :: i <= j < k ==> TABLE[j] != s
    ensures FindFrom(s, i) == k
    decreases k - i
  {
    if i < k {
      FindFirst(s, i + 1, k);
    }
  }

  lemma CodeRoundTrip(code: int)
    requires InRange(code)
    ensures ToEnum(ToString(code)) == code
  {
    forall j | 0 <= j < code ensures TABLE[j] != TABLE[code] {
      Distinct(j, code);
    }
    FindFirst(TABLE[code], 0, code);
  }

  lemma Distinct(j: nat, k: nat)
    requires j < k < |TABLE|
    ensures TABLE[j] != TABLE[k]
  {
    if |TABLE[j]| == |TABLE[k]| {
      assert TABLE[j][0] != TABLE[k][0];
    }
  }

  /** A string no table entry is as long as stands for no code. */
  lemma {:induction false} LongIsNone(s: string, i: nat)
    requires i <= |TABLE| && |s| > 12
    ensures FindFrom(s, i) == ES_NONE
    decreases |TABLE| - i
  {
    if i < |TABLE| {
      assert |TABLE[i]| <= 12;
      LongIsNone(s, i + 1);
    }
  }

  lemma UnknownIsNone()
    ensures ToEnum("UNKNOWN") == ES_NONE
  {
    forall i | 0 <= i < |TABLE| ensures TABLE[i] != "UNKNOWN" {
      if |TABLE[i]| == 7 {
        assert TABLE[i][0] != 'U';
      }
    }
    NotFound("UNKNOWN", 0);
  }

  lemma {:induction false} NotFound(s: string, i: nat)
    requires i <= |TABLE| && s !in TABLE
    ensures FindFrom(s, i) == ES_NONE
    decreases |TABLE| - i
  {
    if i < |TABLE| {
      NotFound(s, i + 1);
    }
  }

  predicate Agrees(st: Snapshot) {
    st.code == ToEnum(st.err)
  }

  /** What every snapshot is: non-empty and short enough for its 64-byte buffer. */
  predicate Fits(st: Snapshot) {
    0 < |st.err| < STR_MAX
  }

  /** Setting by string restores the agreement whenever it stores, for strings of any length. */
  lemma AgreesAfterString(st: Snapshot, s: string)
    requires Fits(st)
    ensures Fits(SetString(st, s))
    ensures Agrees(SetString(st, s)) <==> Agrees(st) || Stores(st, s)
  {
    var t := Effective(s);
    if Stores(st, s) && |t| >= STR_MAX {
      LongIsNone(t, 0);
      LongIsNone(Upto(t, STR_MAX - 1), 0);
    }
  }

  /** Setting by code breaks it for exactly one kind of call: a second code outside the table. */
  lemma AgreesAfterCode(st: Snapshot, code: int)
    requires Fits(st)
    ensures Fits(SetEnum(st, code))
    ensures Agrees(SetEnum(st, code)) <==> InRange(code) || st.err != "UNKNOWN"
  {
    var t := ToString(code);
    assert 0 < |t| <= 12;
    if InRange(code) {
      CodeRoundTrip(code);
    } else {
      UnknownIsNone();
    }
  }

  /** The subscriber is called without a change of snapshot for exactly the over-long repeats. */
  lemma NotifiedExactlyOnChange(st: Snapshot, s: string)
    requires Fits(st)
    ensures SetString(st, s).err != st.err ==> Stores(st, s)
    ensures Stores(st, s) && SetString(st, s).err == st.err
            <==> |s| >= STR_MAX && s[..STR_MAX - 1] == st.err
  {
    var t := Effective(s);
    if |t| < STR_MAX {
      assert Upto(st.err, STR_MAX) == st.err && Upto(t, STR_MAX) == t == Upto(t, STR_MAX - 1);
    } else {
      assert |Upto(t, STR_MAX)| == STR_MAX;
    }
  }

  /** The canonical strings. */
  lemma CanonicalStrings()
    ensures ToString(0) == "NONE" && ToString(1) == "NO_CREDS" && ToString(2) == "IP_LOST"
    ensures ToString(3) == "AUTH_EXPIRE" && ToString(4) == "AUTH_FAIL" && ToString(5) == "NO_AP"
    ensures ToString(6) == "4WAY_TIMEOUT" && ToString(7) == "ASSOC_EXPIRE" && ToString(8) == "BEACON_TO"
    ensures ToString(9) == "DISCONNECTED"
    ensures forall code :: !(0 <= code <= 9) ==> ToString(code) == "UNKNOWN"
  {
  }

  /** A string that fits is stored as it is, "NONE" standing for NULL and the empty string. */
  lemma ShortStringIsStored(st: Snapshot, s: string)
    requires |s| < 64
    ensures SetString(st, s).err == if s == "" then "NONE" else s
    ensures SetString(st, s).code == if SetString(st, s).err == st.err then st.code else ToEnum(s)
  {
    var t := Effective(s);
    assert Upto(t, STR_MAX) == t == Upto(t, STR_MAX - 1);
    assert ToEnum("NONE") == ES_NONE == ToEnum("");
  }

  /** A longer one is cut to 63 characters, and always stored. */
  lemma LongStringIsCut(st: Snapshot, s: string)
    requires |s| >= 64 && |st.err| < 64
    ensures SetString(st, s).err == s[..63]
  {
    assert |Upto(s, STR_MAX)| == 64 && |Upto(st.err, STR_MAX)| < 64;
  }

  /** Setting a code in range stores exactly that code and its string, whatever was stored before. */
  lemma CodeIsStored(st: Snapshot, code: int)
    requires InRange(code)
    ensures SetEnum(st, code) == Snapshot(ToString(code), code)
  {
    CodeRoundTrip(code);
    assert 0 < |ToString(code)| <= 12;
    ShortStringIsStored(st.(code := code), ToString(code));
  }

  // ---- whole call sequences ----

  datatype Call = ByString(s: string) | ByCode(code: int)

  function Apply(st: Snapshot, c: Call): Snapshot {
    match c
    case ByString(s) => SetString(st, s)
    case ByCode(code) => SetEnum(st, code)
  }

  function Run(st: Snapshot, calls: seq<Call>): Snapshot
    decreases |calls|
  {
    if calls == [] then st else Run(Apply(st, calls[0]), calls[1..])
  }

  predicate CodesInRange(calls: seq<Call>) {
    forall i :: 0 <= i < |calls| ==> (calls[i].ByCode? ==> InRange(calls[i].code))
  }

  lemma {:induction false} CodeAndStringAgree(st: Snapshot, calls: seq<Call>)
    requires Fits(st) && Agrees(st) && CodesInRange(calls)
    ensures Fits(Run(st, calls)) && Agrees(Run(st, calls))
    decreases |calls|
  {
    if calls != [] {
      match calls[0] {
        case ByString(s) => AgreesAfterString(st, s);
        case ByCode(code) => AgreesAfterCode(st, code);
      }
      CodeAndStringAgree(Apply(st, calls[0]), calls[1..]);
    }
  }

  lemma AgreesFromBoot(calls: seq<Call>)
    requires CodesInRange(calls)
    ensures Agrees(Run(Snapshot("NONE", ES_NONE), calls))
  {
    CodeRoundTrip(ES_NONE);
    CodeAndStringAgree(Snapshot("NONE", ES_NONE), calls);
  }

  /** Twice the same code outside the table leaves the pair disagreeing. */
  lemma UnknownCodeTwice(code: int)
    requires !InRange(code)
    ensures !Agrees(Run(Snapshot("NONE", ES_NONE), [ByCode(code), ByCode(code)]))
  {
    var s0 := Snapshot("NONE", ES_NONE);
    AgreesAfterCode(s0, code);
    var s1 := Apply(s0, ByCode(code));
    assert s1.err == "UNKNOWN";
    AgreesAfterCode(s1, code);
    assert [ByCode(code), ByCode(code)][1..] == [ByCode(code)];
    assert Run(s1, [ByCode(code)]) == Run(Apply(s1, ByCode(code)), []);
  }
}
