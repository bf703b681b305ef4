/** Totals over all stored accounts, and how writing a list of accounts changes them. */
module Sums {
  import opened Core

  /** The total of a measure over every stored account. */
  ghost function Sum(accounts: Accounts, measure: Account -> nat): nat
    decreases |accounts|
  {
    if accounts == map[] then 0 else
      var id :| id in accounts;
      measure(accounts[id]) + Sum(accounts - {id}, measure)
  }

  /** The total of a measure over a list of accounts. */
  function SumSeq(accounts: seq<Account>, measure: Account -> nat): nat {
    if accounts == [] then 0
    else SumSeq(accounts[..|accounts| - 1], measure) + measure(accounts[|accounts| - 1])
  }

  /** Any stored account can be taken out of the total first. */
  lemma {:induction false} SumSplit(accounts: Accounts, measure: Account -> nat, id: AccountId)
    requires id in accounts
    ensures Sum(accounts, measure) == measure(accounts[id]) + Sum(accounts - {id}, measure)
    decreases |accounts|
  {
    var first :| first in accounts
      && Sum(accounts, measure) == measure(accounts[first]) + Sum(accounts - {first}, measure);
    if first != id {
      SumSplit(accounts - {first}, measure, id);
      SumSplit(accounts - {id}, measure, first);
      assert accounts - {first} - {id} == accounts - {id} - {first};
    }
  }

  lemma SumUpdate(accounts: Accounts, measure: Account -> nat, id: AccountId, account: Account)
    requires measure(DEFAULT_ACCOUNT) == 0
    ensures Sum(accounts[id := account], measure)
         == Sum(accounts, measure) - measure(Lookup(accounts, id)) + measure(account)
  {
    SumSplit(accounts[id := account], measure, id);
    assert accounts[id := account] - {id} == accounts - {id};
    if id in accounts {
      SumSplit(accounts, measure, id);
    } else {
      assert accounts - {id} == accounts;
    }
  }

  lemma {:induction false} SumBoundsEach(accounts: Accounts, measure: Account -> nat, id: AccountId)
    requires measure(DEFAULT_ACCOUNT) == 0
    ensures measure(Lookup(accounts, id)) <= Sum(accounts, measure)
  {
    if id in accounts {
      SumSplit(accounts, measure, id);
    }
  }

  lemma {:induction false} SumBoundsTwo(accounts: Accounts, measure: Account -> nat, id: AccountId, other: AccountId)
    requires measure(DEFAULT_ACCOUNT) == 0
    requires id != other
    ensures measure(Lookup(accounts, id)) + measure(Lookup(accounts, other)) <= Sum(accounts, measure)
  {
    if id in accounts {
      SumSplit(accounts, measure, id);
      SumBoundsEach(accounts - {id}, measure, other);
    } else {
      SumBoundsEach(accounts, measure, other);
    }
  }

  lemma {:induction false} SumMonotone(accounts: Accounts, low: Account -> nat, high: Account -> nat)
    requires forall a :: low(a) <= high(a)
    ensures Sum(accounts, low) <= Sum(accounts, high)
    decreases |accounts|
  {
    if accounts != map[] {
      var id :| id in accounts;
      SumSplit(accounts, low, id);
      SumSplit(accounts, high, id);
      SumMonotone(accounts - {id}, low, high);
    }
  }

  // ------------------------------------------------------- writing accounts

  /** Writes each account under its id, first to last. */
  function Record(accounts: Accounts, ids: seq<AccountId>, written: seq<Account>): Accounts
    requires |ids| == |written|
  {
    if ids == [] then accounts
    else
      var last := |ids| - 1;
      Record(accounts, ids[..last], written[..last])[ids[last] := written[last]]
  }

  lemma {:induction false} RecordElsewhere(accounts: Accounts, ids: seq<AccountId>,
                                           written: seq<Account>, id: AccountId)
    requires |ids| == |written|
    requires id !in ids
    ensures id in Record(accounts, ids, written) <==> id in accounts
    ensures Lookup(Record(accounts, ids, written), id) == Lookup(accounts, id)
  {
    if ids != [] {
      RecordElsewhere(accounts, ids[..|ids| - 1], written[..|ids| - 1], id);
    }
  }

  lemma {:induction false} RecordAt(accounts: Accounts, ids: seq<AccountId>, written: seq<Account>, i: nat)
    requires |ids| == |written|
    requires Distinct(ids)
    requires i < |ids|
    ensures ids[i] in Record(accounts, ids, written)
    ensures Record(accounts, ids, written)[ids[i]] == written[i]
  {
    var last := |ids| - 1;
    if i < last {
      assert ids[..last][i] != ids[last];
      RecordAt(accounts, ids[..last], written[..last], i);
    }
  }

  /** Writing over an overlay and writing over the accounts below it agree. */
  lemma {:induction false} RecordOverlay(below: Accounts, overlay: Accounts, ids: seq<AccountId>, written: seq<Account>)
    requires |ids| == |written|
    ensures below + Record(overlay, ids, written) == Record(below + overlay, ids, written)
  {
    if ids != [] {
      var last := |ids| - 1;
      RecordOverlay(below, overlay, ids[..last], written[..last]);
    }
  }

  /** Replacing accounts at distinct ids moves the total by exactly the difference of the two lists. */
  lemma {:induction false} SumRecord(accounts: Accounts, ids: seq<AccountId>, before: seq<Account>,
                                     after: seq<Account>, measure: Account -> nat)
    requires |ids| == |before| == |after|
    requires Distinct(ids)
    requires forall i :: 0 <= i < |ids| ==> before[i] == Lookup(accounts, ids[i])
    requires measure(DEFAULT_ACCOUNT) == 0
    ensures Sum(Record(accounts, ids, after), measure) + SumSeq(before, measure)
         == Sum(accounts, measure) + SumSeq(after, measure)
  {
    if ids != [] {
      var last := |ids| - 1;
      SumRecord(accounts, ids[..last], before[..last], after[..last], measure);
      RecordElsewhere(accounts, ids[..last], after[..last], ids[last]);
      SumUpdate(Record(accounts, ids[..last], after[..last]), measure, ids[last], after[last]);
    }
  }

  // ------------------------------------------------------------ uniqueness

  /** Number of different values in a list. */
  function NUnique<T(==)>(s: seq<T>): nat {
    |set x | x in s|
  }

  lemma {:induction false} NUniqueIsDistinct<T>(s: seq<T>)
    ensures NUnique(s) <= |s|
    ensures NUnique(s) == |s| <==> Distinct(s)
  {
    hide NUnique, Distinct;
    if s == [] {
      UniqueOfNone<T>();
      assert s == [];
    } else {
      var init, last := s[..|s| - 1], s[|s| - 1];
      assert s == init + [last];
      NUniqueIsDistinct(init);
      UniqueOfNext(init, last);
      DistinctOfNext(init, last);
    }
  }

  lemma UniqueOfNone<T>()
    ensures NUnique<T>([]) == 0 && Distinct<T>([])
  {
    var none: seq<T> := [];
    assert (set x | x in none) == {};
  }

  lemma UniqueOfNext<T>(init: seq<T>, last: T)
    ensures NUnique(init + [last]) == NUnique(init) + if last in init then 0 else 1
  {
    var s := init + [last];
    var before, after := set x | x in init, set x | x in s;
    assert after == before + {last};
    if last in init {
      assert after == before;
    } else {
      assert last !in before;
    }
  }

  lemma DistinctOfNext<T>(init: seq<T>, last: T)
    ensures Distinct(init + [last]) <==> Distinct(init) && last !in init
  {
    var s := init + [last];
    if Distinct(s) {
      forall i, j | 0 <= i < j < |init|
        ensures init[i] != init[j]
      {
        assert s[i] != s[j];
      }
      forall i | 0 <= i < |init|
        ensures init[i] != last
      {
        assert s[i] != s[|init|];
      }
    }
  }
}
