/** Account balances and their sum.  An account without an entry has balance zero; a balance is an
    unbounded integer, as subtraction does not check for underflow. */
module Balances {

  type Address = nat
  type Balances = map<Address, int>

  function GetBalance(b: Balances, a: Address): int
  {
    if a in b then b[a] else 0
  }

  function AddBalance(b: Balances, a: Address, amount: int): Balances
  {
    b[a := GetBalance(b, a) + amount]
  }

  function SubBalance(b: Balances, a: Address, amount: int): Balances
  {
    b[a := GetBalance(b, a) - amount]
  }

  ghost function Total(b: Balances): int
    decreases |b|
  {
    if b == map[] then 0 else var a :| a in b; Smaller(b, a); b[a] + Total(b - {a})
  }

  lemma {:induction false} Smaller(b: Balances, a: Address)
    requires a in b
    ensures |b - {a}| < |b|
  {
    assert (b - {a}).Keys == b.Keys - {a};
  }

  /** The sum does not depend on the order in which accounts are taken out. */
  lemma {:induction false} TotalWithout(b: Balances, a: Address)
    requires a in b
    ensures Total(b) == b[a] + Total(b - {a})
    decreases |b|
  {
    var c :| c in b && Total(b) == b[c] + Total(b - {c});
    if c != a {
      Smaller(b, c);
      Smaller(b, a);
      TotalWithout(b - {c}, a);
      TotalWithout(b - {a}, c);
      assert b - {c} - {a} == b - {a} - {c};
    }
  }

  lemma {:induction false} TotalSet(b: Balances, a: Address, v: int)
    ensures Total(b[a := v]) == Total(b) - GetBalance(b, a) + v
  {
    TotalWithout(b[a := v], a);
    assert b[a := v] - {a} == b - {a};
    if a in b {
      TotalWithout(b, a);
    } else {
      assert b - {a} == b;
    }
  }

  lemma {:induction false} TotalAdd(b: Balances, a: Address, amount: int)
    ensures Total(AddBalance(b, a, amount)) == Total(b) + amount
    ensures Total(SubBalance(b, a, amount)) == Total(b) - amount
  {
    TotalSet(b, a, GetBalance(b, a) + amount);
    TotalSet(b, a, GetBalance(b, a) - amount);
  }

  /** The value transfer hook of the virtual machine moves value and creates none, also when sender
      and recipient are the same account. */
  lemma {:induction false} TransferKeepsTotal(b: Balances, sender: Address, recipient: Address, amount: int)
    ensures var after := AddBalance(SubBalance(b, sender, amount), recipient, amount);
            && Total(after) == Total(b)
            && (sender == recipient ==> GetBalance(after, sender) == GetBalance(b, sender))
  {
    TotalAdd(b, sender, amount);
    TotalAdd(SubBalance(b, sender, amount), recipient, amount);
  }
}
