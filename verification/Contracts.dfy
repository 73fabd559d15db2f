/**
 The two contracts as objects that update their storage in place. A method returns false when the
 call reverts; the EVM then undoes every write of the call, including those made in nested calls,
 which the methods do by putting the saved storage back. Each method is proved against the
 corresponding function of module Ledger.
 */
module Contracts {
  import opened Wrappers
  import opened MapSums
  import opened Bytes
  import Ledger

  class MockUSDC {
    var totalSupply: nat
    var balanceOf: map<Address, nat>
    var allowance: map<(Address, Address), nat>

    constructor ()
      ensures State() == Ledger.Token(map[], map[], 0)
    {
      totalSupply, balanceOf, allowance := 0, map[], map[];
    }

    function State(): Ledger.Token
      reads this
    {
      Ledger.Token(balanceOf, allowance, totalSupply)
    }

    /** Puts saved storage back. */
    method Undo(saved: Ledger.Token)
      modifies this
      ensures State() == saved
    {
      balanceOf, allowance, totalSupply := saved.balanceOf, saved.allowance, saved.totalSupply;
    }

    method Mint(to: Address, amount: nat) returns (ok: bool)
      modifies this
      ensures Ledger.Mint(old(State()), to, amount) == if ok then Some(State()) else None
      ensures !ok ==> State() == old(State())
    {
      var saved := State();
      if At(balanceOf, to) + amount >= Ledger.UINT256_LIMIT { return false; }
      balanceOf := balanceOf[to := At(balanceOf, to) + amount];
      if totalSupply + amount >= Ledger.UINT256_LIMIT { Undo(saved); return false; }
      totalSupply := totalSupply + amount;
      return true;
    }

    method Approve(sender: Address, spender: Address, amount: nat)
      modifies this
      ensures Ledger.Approve(old(State()), sender, spender, amount) == Some(State())
    {
      allowance := allowance[(sender, spender) := amount];
    }

    method Transfer(sender: Address, to: Address, amount: nat) returns (ok: bool)
      modifies this
      ensures Ledger.Transfer(old(State()), sender, to, amount) == if ok then Some(State()) else None
      ensures !ok ==> State() == old(State())
    {
      var saved := State();
      if At(balanceOf, sender) < amount { return false; }
      balanceOf := balanceOf[sender := At(balanceOf, sender) - amount];
      if At(balanceOf, to) + amount >= Ledger.UINT256_LIMIT { Undo(saved); return false; }
      balanceOf := balanceOf[to := At(balanceOf, to) + amount];
      return true;
    }

    method TransferFrom(sender: Address, from: Address, to: Address, amount: nat) returns (ok: bool)
      modifies this
      ensures Ledger.TransferFrom(old(State()), sender, from, to, amount) == if ok then Some(State()) else None
      ensures !ok ==> State() == old(State())
    {
      var saved := State();
      if At(allowance, (from, sender)) < amount { return false; }
      if At(balanceOf, from) < amount { return false; }
      allowance := allowance[(from, sender) := At(allowance, (from, sender)) - amount];
      balanceOf := balanceOf[from := At(balanceOf, from) - amount];
      if At(balanceOf, to) + amount >= Ledger.UINT256_LIMIT { Undo(saved); return false; }
      balanceOf := balanceOf[to := At(balanceOf, to) + amount];
      return true;
    }
  }

  class LeagueEscrow {
    const usdc: MockUSDC
    const deployment: Ledger.Deployment
    var payments: map<LeagueKey, map<Address, nat>>
    var leagueTotals: map<LeagueKey, nat>
    var events: seq<Ledger.Event>
    /** USDC taken by `EmergencyWithdraw` so far: history, not contract storage. */
    ghost var recovered: nat

    constructor (token: MockUSDC, escrow: Address, deployer: Address)
      ensures usdc == token && deployment == Ledger.Deployment(escrow, deployer)
      ensures State() == Ledger.World(token.State(), map[], map[], [], 0)
    {
      usdc, deployment := token, Ledger.Deployment(escrow, deployer);
      payments, leagueTotals, events, recovered := map[], map[], [], 0;
    }

    ghost function State(): Ledger.World
      reads this, usdc
    {
      Ledger.World(usdc.State(), payments, leagueTotals, events, recovered)
    }

    method PayEntryFee(sender: Address, l: LeagueKey, amount: nat) returns (ok: bool)
      modifies this, usdc
      ensures Ledger.PayEntryFee(deployment, old(State()), sender, l, amount) == if ok then Some(State()) else None
      ensures !ok ==> State() == old(State())
    {
      if amount == 0 { return false; }
      var savedPayments, savedTotals := payments, leagueTotals;
      var row := if l in payments then payments[l] else map[];
      if At(row, sender) + amount >= Ledger.UINT256_LIMIT { return false; }
      payments := payments[l := row[sender := At(row, sender) + amount]];
      if At(leagueTotals, l) + amount >= Ledger.UINT256_LIMIT {
        payments := savedPayments;
        return false;
      }
      leagueTotals := leagueTotals[l := At(leagueTotals, l) + amount];
      ok := usdc.TransferFrom(deployment.escrow, sender, deployment.escrow, amount);
      if !ok {
        payments, leagueTotals := savedPayments, savedTotals;
        return false;
      }
      events := events + [Ledger.EntryFeePaid(l, sender, amount)];
    }

    method ClaimRefund(sender: Address, l: LeagueKey) returns (ok: bool)
      modifies this, usdc
      ensures Ledger.ClaimRefund(deployment, old(State()), sender, l) == if ok then Some(State()) else None
      ensures !ok ==> State() == old(State())
    {
      var row := if l in payments then payments[l] else map[];
      var amount := At(row, sender);
      if amount == 0 { return false; }
      var savedPayments, savedTotals := payments, leagueTotals;
      payments := payments[l := row[sender := 0]];
      if At(leagueTotals, l) < amount {
        payments := savedPayments;
        return false;
      }
      leagueTotals := leagueTotals[l := At(leagueTotals, l) - amount];
      ok := usdc.Transfer(deployment.escrow, sender, amount);
      if !ok {
        payments, leagueTotals := savedPayments, savedTotals;
        return false;
      }
      events := events + [Ledger.RefundClaimed(l, sender, amount)];
    }

    method DistributePayout(sender: Address, l: LeagueKey, recipients: seq<Address>, amounts: seq<nat>) returns (ok: bool)
      modifies this, usdc
      ensures Ledger.DistributePayout(deployment, old(State()), sender, l, recipients, amounts) == if ok then Some(State()) else None
      ensures !ok ==> State() == old(State())
    {
      if sender != deployment.owner || |recipients| != |amounts| { return false; }
      var total := 0;
      for i := 0 to |amounts|
        invariant Ledger.CheckedSum(amounts, i) == Some(total)
      {
        if total + amounts[i] >= Ledger.UINT256_LIMIT {
          OverflowSticks(amounts, i + 1, |amounts|);
          return false;
        }
        total := total + amounts[i];
      }
      if total > At(leagueTotals, l) { return false; }

      var savedToken, savedTotals, savedEvents := usdc.State(), leagueTotals, events;
      leagueTotals := leagueTotals[l := At(leagueTotals, l) - total];
      ghost var start := State();
      for i := 0 to |recipients|
        invariant Ledger.PayFirst(deployment, start, l, recipients, amounts, i) == Some(State())
        invariant payments == old(payments) && recovered == old(recovered)
      {
        ok := usdc.Transfer(deployment.escrow, recipients[i], amounts[i]);
        if !ok {
          RevertSticks(deployment, start, l, recipients, amounts, i + 1, |recipients|);
          usdc.Undo(savedToken);
          leagueTotals, events := savedTotals, savedEvents;
          return false;
        }
        events := events + [Ledger.PayoutDistributed(l, recipients[i], amounts[i])];
      }
      return true;
    }

    /** The token may be the escrow's USDC or any other; another token's books are its own. */
    method EmergencyWithdraw(sender: Address, token: MockUSDC, amount: nat) returns (ok: bool)
      modifies this, token
      ensures token == usdc ==>
                Ledger.EmergencyWithdraw(deployment, old(State()), sender, amount) == if ok then Some(State()) else None
      ensures token != usdc ==> State() == old(State())
      ensures token != usdc ==>
                (if sender == deployment.owner then Ledger.Transfer(old(token.State()), deployment.escrow, deployment.owner, amount) else None)
                == if ok then Some(token.State()) else None
      ensures !ok ==> State() == old(State()) && token.State() == old(token.State())
    {
      if sender != deployment.owner { return false; }
      ok := token.Transfer(deployment.escrow, deployment.owner, amount);
      if ok && token == usdc {
        recovered := recovered + amount;
      }
    }
  }

  lemma {:induction false} OverflowSticks(amounts: seq<nat>, i: nat, n: nat)
    requires i <= n <= |amounts| && Ledger.CheckedSum(amounts, i) == None
    ensures Ledger.CheckedSum(amounts, n) == None
  {
    if i < n { OverflowSticks(amounts, i, n - 1); }
  }

  lemma {:induction false} RevertSticks(d: Ledger.Deployment, w: Ledger.World, l: LeagueKey, recipients: seq<Address>, amounts: seq<nat>, i: nat, n: nat)
    requires i <= n <= |recipients| == |amounts|
    requires Ledger.PayFirst(d, w, l, recipients, amounts, i) == None
    ensures Ledger.PayFirst(d, w, l, recipients, amounts, n) == None
  {
    if i < n { RevertSticks(d, w, l, recipients, amounts, i, n - 1); }
  }
}
