/**
 * The sub-account creation dialog (src/components/CreateSubaccountModal.js): its form state, the
 * reset when it opens, the name check against the existing names, the clamped starting capital,
 * and the record a valid submission hands to `onCreate`.
 */
module CreateSubaccount {
  import opened Wrappers
  import opened FormFields

  const TakenNameError := "This name is already taken."
  const InvalidNameError := "Please enter a valid, unique name."
  const DefaultBlockchain := "usd"
  const DefaultCapital: real := 1000.0
  const MinCapital: real := 1.0
  const MaxCapital: real := 25000.0

  /** The dialog's state hooks. `nameError` is `""` when there is no error. */
  datatype Form = Form(
    generatedId: string,
    name: string,
    blockchain: string,
    initialCapital: FieldValue,
    nameError: string,
    copySuccess: bool,
    showTooltip: bool,
    isAnimating: bool)

  /** The state before the dialog has ever opened. */
  const InitialForm := Form("", "", DefaultBlockchain, Amount(DefaultCapital), "", false, false, false)

  /**
   * The effect on `isOpen`: opening starts the animation, takes the fresh document id `freshId`
   * (which the source draws from the database client) and resets every other field; a closed
   * dialog keeps its state.
   */
  function OnOpen(f: Form, isOpen: bool, freshId: string): (g: Form)
    ensures isOpen ==> g == Form(freshId, "", DefaultBlockchain, Amount(DefaultCapital), "", false, false, true)
    ensures !isOpen ==> g == f
  {
    if isOpen then Form(freshId, "", DefaultBlockchain, Amount(DefaultCapital), "", false, false, true) else f
  }

  /** `handleNameChange`: the name is taken as typed, and flagged exactly when it is already in use. */
  function HandleNameChange(f: Form, val: string, existingNames: seq<string>): (g: Form)
    ensures g.name == val
    ensures g.nameError == TakenNameError <==> val in existingNames
    ensures val !in existingNames ==> g.nameError == ""
    ensures g.(name := f.name, nameError := f.nameError) == f
  {
    f.(name := val, nameError := if val in existingNames then TakenNameError else "")
  }

  /** `handleCapitalChange`: an emptied field stays empty, a number is clamped into [1, 25000]. */
  function HandleCapitalChange(f: Form, input: FieldValue): (g: Form)
    ensures input.Blank? <==> g.initialCapital.Blank?
    ensures g.initialCapital.Amount? ==> MinCapital <= g.initialCapital.value <= MaxCapital
    ensures input.Amount? && MinCapital <= input.value <= MaxCapital ==> g.initialCapital == input
    ensures g.(initialCapital := f.initialCapital) == f
  {
    f.(initialCapital := EditField(MinCapital, MaxCapital, input))
  }

  /** `handleCapitalBlur`: an empty capital field becomes 1. */
  function HandleCapitalBlur(f: Form): (g: Form)
    ensures g.initialCapital.Amount?
    ensures f.initialCapital.Amount? ==> g == f
    ensures f.initialCapital.Blank? ==> g == f.(initialCapital := Amount(MinCapital))
  {
    f.(initialCapital := LeaveField(MinCapital, f.initialCapital))
  }

  /** Typing a capital and leaving the field ends with a capital between 1 and 25000. */
  lemma CapitalSettlesInRange(f: Form, input: FieldValue)
    ensures var c := HandleCapitalBlur(HandleCapitalChange(f, input)).initialCapital;
            c.Amount? && MinCapital <= c.value <= MaxCapital
  {
    EditThenLeaveInRange(MinCapital, MaxCapital, MinCapital, input);
  }

  /**
   * What `String.prototype.trim` strips: the white-space characters (tab, vertical tab, form
   * feed, space, no-break space, the byte-order mark and the other space separators) and the line
   * terminators.
   */
  predicate IsTrimmed(c: char) {
    var n := c as int;
    || n == 0x9 || n == 0xA || n == 0xB || n == 0xC || n == 0xD || n == 0x20 || n == 0xA0
    || n == 0x1680 || (0x2000 <= n <= 0x200A) || n == 0x2028 || n == 0x2029 || n == 0x202F
    || n == 0x205F || n == 0x3000 || n == 0xFEFF
  }

  /** `s` without its leading white space. */
  function TrimStart(s: string): (r: string)
    ensures |r| <= |s| && r == s[|s| - |r|..]
    ensures forall i :: 0 <= i < |s| - |r| ==> IsTrimmed(s[i])
    ensures r == [] || !IsTrimmed(r[0])
    decreases |s|
  {
    if s != [] && IsTrimmed(s[0]) then TrimStart(s[1..]) else s
  }

  /** `s` without its trailing white space. */
  function TrimEnd(s: string): (r: string)
    ensures |r| <= |s| && r == s[..|r|]
    ensures forall i :: |r| <= i < |s| ==> IsTrimmed(s[i])
    ensures r == [] || !IsTrimmed(r[|r| - 1])
    decreases |s|
  {
    if s != [] && IsTrimmed(s[|s| - 1]) then TrimEnd(s[..|s| - 1]) else s
  }

  /** How many white-space characters `s` begins with. */
  function LeadingSpace(s: string): (a: nat)
    ensures a <= |s|
    ensures forall i :: 0 <= i < a ==> IsTrimmed(s[i])
    ensures a == |s| || !IsTrimmed(s[a])
  {
    var t := TrimStart(s);
    assert t != [] ==> t[0] == s[|s| - |t|];
    |s| - |t|
  }

  /**
   * `s.trim()`: the piece of `s` after its leading white space and before its trailing white
   * space, neither end of it white space.
   */
  function Trim(s: string): (r: string)
    ensures LeadingSpace(s) + |r| <= |s| && r == s[LeadingSpace(s)..LeadingSpace(s) + |r|]
    ensures forall i :: LeadingSpace(s) + |r| <= i < |s| ==> IsTrimmed(s[i])
    ensures r == [] || (!IsTrimmed(r[0]) && !IsTrimmed(r[|r| - 1]))
  {
    var t := TrimStart(s);
    var r := TrimEnd(t);
    PrefixOfSuffix(s, t, r);
    assert r != [] ==> r[0] == t[0];
    r
  }

  /** A prefix `r` of a suffix `t` of `s` is the piece of `s` at `|s| - |t|`, followed by the rest of `t`. */
  lemma PrefixOfSuffix<T>(s: seq<T>, t: seq<T>, r: seq<T>)
    requires |t| <= |s| && t == s[|s| - |t|..]
    requires |r| <= |t| && r == t[..|r|]
    ensures r == s[|s| - |t|..|s| - |t| + |r|]
    ensures forall i :: |s| - |t| + |r| <= i < |s| ==> s[i] == t[i - (|s| - |t|)]
  {
  }

  /** A name trims to the empty string exactly when it is all white space. */
  lemma TrimEmptyIffBlank(s: string)
    ensures Trim(s) == "" <==> forall i :: 0 <= i < |s| ==> IsTrimmed(s[i])
  {
    if forall i :: 0 <= i < |s| ==> IsTrimmed(s[i]) {
      assert LeadingSpace(s) == |s|;
    }
  }

  /** One history point `{ date, value }`. */
  datatype HistoryPoint = HistoryPoint(date: string, value: FieldValue)

  /** An entry of a sub-account's position, order or trade lists; the dialog only creates empty lists. */
  datatype Entry = Entry(fields: map<string, string>)

  /** The record handed to `onCreate`. */
  datatype Subaccount = Subaccount(
    id: string,
    name: string,
    blockchain: string,
    balance: FieldValue,
    accountValue: FieldValue,
    pnl: real,
    pnlHistory: seq<HistoryPoint>,
    accountValueHistory: seq<HistoryPoint>,
    positions: seq<Entry>,
    openOrders: seq<Entry>,
    orderHistory: seq<Entry>,
    tradeHistory: seq<Entry>)

  /** A name that can be submitted: not blank after trimming, and not flagged. */
  predicate Submittable(f: Form) {
    Trim(f.name) != "" && f.nameError == ""
  }

  /**
   * `handleSubmit`, at the ISO time `now`: a blank or flagged name sets the invalid-name error and
   * creates nothing; otherwise the form is left as it is and a new sub-account is created under the
   * generated id and the untrimmed name, holding the chosen capital as balance and account value,
   * with zero PnL, a one-point history of each, and no positions, orders or trades.
   */
  function HandleSubmit(f: Form, now: string): (res: (Form, Option<Subaccount>))
    ensures !Submittable(f) ==> res == (f.(nameError := InvalidNameError), None)
    ensures Submittable(f) ==> res.0 == f && res.1.Some?
    ensures res.1.Some? ==>
              var a := res.1.value;
              && a.id == f.generatedId && a.name == f.name && a.blockchain == f.blockchain
              && a.balance == f.initialCapital && a.accountValue == f.initialCapital
              && a.pnl == 0.0
              && a.pnlHistory == [HistoryPoint(now, Amount(0.0))]
              && a.accountValueHistory == [HistoryPoint(now, f.initialCapital)]
              && a.positions == [] && a.openOrders == [] && a.orderHistory == [] && a.tradeHistory == []
  {
    if !Submittable(f) then (f.(nameError := InvalidNameError), None)
    else
      (f, Some(Subaccount(f.generatedId, f.name, f.blockchain, f.initialCapital, f.initialCapital, 0.0,
                          [HistoryPoint(now, Amount(0.0))], [HistoryPoint(now, f.initialCapital)],
                          [], [], [], [])))
  }

  /**
   * After typing `val`, a submission creates a sub-account exactly when `val` has a character
   * other than white space and is not one of the existing names; the record carries `val` as typed.
   */
  lemma SubmitAfterNameChange(f: Form, val: string, existingNames: seq<string>, now: string)
    ensures var res := HandleSubmit(HandleNameChange(f, val, existingNames), now);
            && (res.1.Some? <==> (exists i :: 0 <= i < |val| && !IsTrimmed(val[i])) && val !in existingNames)
            && (res.1.Some? ==> res.1.value.name == val)
  {
    TrimEmptyIffBlank(val);
  }

  /** A freshly opened dialog refuses to submit until a name is typed. */
  lemma OpenedFormRejectsSubmit(f: Form, freshId: string, now: string)
    ensures var g := OnOpen(f, true, freshId);
            HandleSubmit(g, now) == (g.(nameError := InvalidNameError), None)
  {
    assert Trim("") == "";
  }
}
