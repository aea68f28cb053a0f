/**
 * The sub-account context of the front end (src/context/SubaccountContext.js): the list of the
 * signed-in user's sub-accounts, the selected one, and how fetching, selecting and updating change
 * them. The database read and React's state hooks are not modelled; a fetch is given by its outcome.
 */
module SubaccountContext {
  import opened Wrappers

  /** A sub-account document: its id and the rest of its data. */
  datatype Account<D> = Account(id: string, data: D)

  /** The context's state hooks. */
  datatype Context<D> = Context(subaccounts: seq<Account<D>>, selected: Option<Account<D>>, loading: bool)

  function InitialContext<D>(): Context<D> {
    Context([], None, false)
  }

  /** How `fetchSubaccounts` ends: nobody signed in, the query threw, or the documents it returned. */
  datatype Fetch<D> = NoUser | FetchFailed | Fetched(docs: seq<Account<D>>)

  /** The position of the first account with id `id`, or `|s|` when there is none. */
  function FirstWithId<D>(s: seq<Account<D>>, id: string): (k: nat)
    ensures k <= |s|
    ensures forall j :: 0 <= j < k ==> s[j].id != id
    ensures k < |s| ==> s[k].id == id
    decreases |s|
  {
    if s == [] || s[0].id == id then 0 else 1 + FirstWithId(s[1..], id)
  }

  /** `find(sub => sub.id === id)`: the first account with that id, if any. */
  function FindById<D>(s: seq<Account<D>>, id: string): (r: Option<Account<D>>)
    ensures r.Some? ==> r.value.id == id && exists k :: 0 <= k < |s| && s[k] == r.value && forall j :: 0 <= j < k ==> s[j].id != id
    ensures r.None? <==> forall k :: 0 <= k < |s| ==> s[k].id != id
  {
    var k := FirstWithId(s, id);
    if k < |s| then Some(s[k]) else None
  }

  /**
   * The state after `fetchSubaccounts`: with nobody signed in the list and the selection are
   * cleared (and `loading` is not touched); an empty result clears them too; otherwise the list is
   * the documents, and the selection is the document with the selected id if one is still there,
   * else the first document. A failed query leaves both as they were. `loading` ends false.
   */
  function FetchSubaccounts<D>(c: Context<D>, outcome: Fetch<D>): (r: Context<D>)
    ensures outcome.NoUser? ==> r == c.(subaccounts := [], selected := None)
    ensures outcome.FetchFailed? ==> r == c.(loading := false)
    ensures outcome.Fetched? && outcome.docs == [] ==> r == Context([], None, false)
    ensures outcome.Fetched? && outcome.docs != [] ==>
              && r.subaccounts == outcome.docs && !r.loading
              && r.selected.Some? && r.selected.value in outcome.docs
              && (c.selected.Some? && FindById(outcome.docs, c.selected.value.id).Some? ==>
                    r.selected == FindById(outcome.docs, c.selected.value.id))
              && (c.selected.None? || FindById(outcome.docs, c.selected.value.id).None? ==>
                    r.selected == Some(outcome.docs[0]))
  {
    match outcome
    case NoUser => c.(subaccounts := [], selected := None)
    case FetchFailed => c.(loading := false)
    case Fetched(docs) =>
      if docs == [] then Context([], None, false)
      else
        var kept := if c.selected.Some? then FindById(docs, c.selected.value.id) else None;
        Context(docs, Some(kept.GetOr(docs[0])), false)
  }

  /** `selectSubaccount`: the selection becomes the given account (or none). */
  function SelectSubaccount<D>(c: Context<D>, sub: Option<Account<D>>): (r: Context<D>)
    ensures r.selected == sub && r.subaccounts == c.subaccounts && r.loading == c.loading
  {
    c.(selected := sub)
  }

  /** The list with every account whose id is `u`'s replaced by `u`. */
  function ReplaceById<D>(s: seq<Account<D>>, u: Account<D>): (r: seq<Account<D>>)
    ensures |r| == |s|
    ensures forall i :: 0 <= i < |s| ==> r[i] == (if s[i].id == u.id then u else s[i])
  {
    seq(|s|, i requires 0 <= i < |s| => if s[i].id == u.id then u else s[i])
  }

  /**
   * `updateSubaccount(u)`: every listed account with `u`'s id becomes `u`, and so does the
   * selection when it has that id.
   */
  function UpdateSubaccount<D>(c: Context<D>, u: Account<D>): (r: Context<D>)
    ensures r.subaccounts == ReplaceById(c.subaccounts, u)
    ensures r.selected == if c.selected.Some? && c.selected.value.id == u.id then Some(u) else c.selected
    ensures r.loading == c.loading
  {
    var selected := if c.selected.Some? && c.selected.value.id == u.id then Some(u) else c.selected;
    Context(ReplaceById(c.subaccounts, u), selected, c.loading)
  }

  /** An update keeps the order and the ids of the list, and every account with another id. */
  lemma UpdateKeepsOthers<D>(c: Context<D>, u: Account<D>)
    ensures var s, t := c.subaccounts, UpdateSubaccount(c, u).subaccounts;
            && |t| == |s|
            && (forall i :: 0 <= i < |s| ==> t[i].id == s[i].id)
            && (forall i :: 0 <= i < |s| && s[i].id != u.id ==> t[i] == s[i])
            && ((exists i :: 0 <= i < |s| && s[i].id == u.id) <==> u in t)
  {
    var s, t := c.subaccounts, UpdateSubaccount(c, u).subaccounts;
    if u in t {
      var i :| 0 <= i < |t| && t[i] == u;
      assert s[i].id == u.id;
    }
  }

  /** Applying the same update twice is applying it once. */
  lemma UpdateIdempotent<D>(c: Context<D>, u: Account<D>)
    ensures UpdateSubaccount(UpdateSubaccount(c, u), u) == UpdateSubaccount(c, u)
  {
    var once := UpdateSubaccount(c, u);
    assert ReplaceById(once.subaccounts, u) == once.subaccounts;
  }

  /** The selection, when there is one, is an account of the list. */
  ghost predicate SelectionListed<D>(c: Context<D>) {
    c.selected.Some? ==> c.selected.value in c.subaccounts
  }

  /** A fetch that reaches the database or finds nobody signed in leaves the selection listed; a failed one keeps it listed. */
  lemma FetchListsSelection<D>(c: Context<D>, outcome: Fetch<D>)
    requires outcome.FetchFailed? ==> SelectionListed(c)
    ensures SelectionListed(FetchSubaccounts(c, outcome))
  {
  }

  /** An update keeps a listed selection listed, as the updated account when it was the one updated. */
  lemma UpdateKeepsSelectionListed<D>(c: Context<D>, u: Account<D>)
    requires SelectionListed(c)
    ensures SelectionListed(UpdateSubaccount(c, u))
  {
    var r := UpdateSubaccount(c, u);
    if c.selected.Some? {
      var i :| 0 <= i < |c.subaccounts| && c.subaccounts[i] == c.selected.value;
      assert r.subaccounts[i] == r.selected.value;
    }
  }
}
