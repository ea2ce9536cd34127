/** The pool's objects and loops (accounts.go), locked calls as atomic methods. */
module AccountObjects {
  import opened Base
  import opened Accounts

  class Account {
    var cooldownUntil: nat
    var nextProbe: nat

    constructor ()
      ensures View() == READY
    {
      cooldownUntil, nextProbe := 0, 0;
    }

    ghost function View(): Acct
      reads this
    {
      Acct(cooldownUntil, nextProbe)
    }

    method IsAvailable(now: nat) returns (r: bool)
      ensures r == Available(View(), now)
    {
      r := !(cooldownUntil > now);
    }

    method Cool(now: nat, until: nat)
      modifies this
      ensures View() == Cooled(old(View()), now, until)
    {
      if until > cooldownUntil { cooldownUntil := until; }
      var next := now + PROBE_INTERVAL;
      if next > nextProbe { nextProbe := next; }
    }

    /** Reports whether a probe is due, and reserves the next slot if it is. */
    method TakeProbe(now: nat) returns (r: bool)
      modifies this
      ensures r == ProbeDue(old(View()), now)
      ensures View() == if r then Probed(old(View()), now) else old(View())
    {
      if !(cooldownUntil > now) { return false; }
      if nextProbe > now { return false; }
      nextProbe := now + PROBE_INTERVAL;
      return true;
    }

    method ClearCooldown()
      modifies this
      ensures View() == READY
    {
      cooldownUntil := 0;
      nextProbe := 0;
    }
  }

  class AccountPool {
    const accounts: seq<Account>
    var active: nat

    constructor (accounts: seq<Account>)
      requires forall i, j :: 0 <= i < j < |accounts| ==> accounts[i] != accounts[j]
      ensures Valid() && this.accounts == accounts && active == 0
    {
      this.accounts := accounts;
      active := 0;
    }

    ghost predicate Valid()
      reads this
    {
      (accounts != [] ==> active < |accounts|) &&
      forall i, j :: 0 <= i < j < |accounts| ==> accounts[i] != accounts[j]
    }

    ghost function View(): Pool
      reads this, accounts
      ensures |View().accounts| == |accounts|
    {
      Pool(seq(|accounts|, i requires 0 <= i < |accounts| reads accounts => accounts[i].View()), active)
    }

    /** The first loop: stay on the active account or rotate to the next available one. */
    method PickAvailable(now: nat) returns (choice: Option<nat>)
      requires Valid()
      modifies this`active
      ensures Valid() && choice == Search(old(View()), now, false, 0)
      ensures View() == if choice.Some? then old(View()).(active := choice.value) else old(View())
    {
      hide Place;
      ghost var p := View();
      for i := 0 to |accounts|
        invariant Valid() && active == p.active && View() == p
        invariant Search(p, now, false, 0) == Search(p, now, false, i)
      {
        var idx := Slot(i);
        var ready := accounts[idx].IsAvailable(now);
        if ready {
          active := idx;
          assert View().accounts == p.accounts;
          return Some(idx);
        }
      }
      return None;
    }

    /** The second loop: every account is benched, so let one through if its probe is due. */
    method PickProbe(now: nat) returns (choice: Option<nat>)
      requires Valid()
      modifies this`active, accounts
      ensures Valid() && choice == Search(old(View()), now, true, 0)
      ensures View() == if choice.None? then old(View()) else
                var a := old(View()).accounts;
                Pool(a[choice.value := Probed(a[choice.value], now)], choice.value)
    {
      hide Place;
      ghost var p := View();
      for i := 0 to |accounts|
        invariant Valid() && active == p.active && View() == p
        invariant Search(p, now, true, 0) == Search(p, now, true, i)
      {
        var idx := Slot(i);
        assert p.accounts[idx] == accounts[idx].View();
        var due := accounts[idx].TakeProbe(now);
        if due {
          active := idx;
          assert View().accounts == p.accounts[idx := Probed(p.accounts[idx], now)];
          return Some(idx);
        }
        assert View().accounts == p.accounts;
      }
      return None;
    }

    method Pick(now: nat) returns (choice: Option<nat>)
      requires Valid()
      modifies this`active, accounts
      ensures Valid()
      ensures (View(), choice) == Accounts.Pick(old(View()), now)
    {
      hide Search, Place;
      choice := PickAvailable(now);
      if choice.None? { choice := PickProbe(now); }
    }

    function Slot(i: nat): (idx: nat)
      requires accounts != [] && active < |accounts|
      reads this, accounts
      ensures idx < |accounts| && idx == Place(View(), i)
    {
      (active + i) % |accounts|
    }
  }
}
