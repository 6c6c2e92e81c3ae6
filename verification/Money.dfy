/** Money: counting the coins in reach, paying with them, and giving change. */
module Money {

  const WORD: int := 0x1_0000_0000
  const STACK: int := 100

  datatype Stack = Stack(id: nat, count: nat)

  /** An item, and what is inside if it is a container. */
  datatype Thing = Thing(stack: Stack, isContainer: bool, kids: seq<Thing>)

  /** What one unit of an item is worth. */
  type Values = nat -> nat

  function Worth(values: Values, s: Stack): (w: nat)
    ensures w < WORD
  {
    (s.count * values(s.id)) % WORD
  }

  function Sum(values: Values, coins: seq<Stack>): nat {
    if coins == [] then 0 else Sum(values, coins[..|coins| - 1]) + Worth(values, coins[|coins| - 1])
  }

  lemma {:induction false} SumJoin(values: Values, a: seq<Stack>, b: seq<Stack>)
    ensures Sum(values, a + b) == Sum(values, a) + Sum(values, b)
    decreases |b|
  {
    hide Worth;
    if b == [] {
      assert a + b == a;
    } else {
      assert (a + b)[..|a + b| - 1] == a + b[..|b| - 1];
      SumJoin(values, a, b[..|b| - 1]);
    }
  }

  lemma SumOne(values: Values, c: Stack)
    ensures Sum(values, [c]) == Worth(values, c)
  {
    hide Worth;
    assert [c][..0] == [];
  }

  lemma SumOut(values: Values, coins: seq<Stack>, i: nat)
    requires i < |coins|
    ensures Sum(values, coins) == Sum(values, coins[..i] + coins[i + 1..]) + Worth(values, coins[i])
  {
    hide Worth, Sum;
    assert coins == coins[..i] + ([coins[i]] + coins[i + 1..]);
    SumJoin(values, coins[..i], [coins[i]] + coins[i + 1..]);
    SumJoin(values, [coins[i]], coins[i + 1..]);
    SumJoin(values, coins[..i], coins[i + 1..]);
    SumOne(values, coins[i]);
  }

  /** A list without one of its stacks has one less of them. */
  lemma OneLess(s: seq<Stack>, i: nat)
    requires i < |s|
    ensures multiset(s[..i] + s[i + 1..]) == multiset(s) - multiset{s[i]}
  {
    assert s == s[..i] + [s[i]] + s[i + 1..];
  }

  lemma SameLast(a: seq<Stack>, b: seq<Stack>) returns (i: nat)
    requires a != [] && multiset(a) == multiset(b)
    ensures i < |b| && b[i] == a[|a| - 1] && multiset(a[..|a| - 1]) == multiset(b[..i] + b[i + 1..])
  {
    var n := |a| - 1;
    assert a[n] in multiset(b);
    i :| 0 <= i < |b| && b[i] == a[n];
    OneLess(a, n);
    OneLess(b, i);
    assert a[..n] + a[n + 1..] == a[..n];
  }

  /** Lists of the same coins are worth the same. */
  lemma {:induction false} SumPermuted(values: Values, a: seq<Stack>, b: seq<Stack>)
    requires multiset(a) == multiset(b)
    ensures Sum(values, a) == Sum(values, b)
    decreases |a|
  {
    hide Worth, Sum;
    if a != [] {
      var i := SameLast(a, b);
      var front := a[..|a| - 1];
      SumPermuted(values, front, b[..i] + b[i + 1..]);
      SumOut(values, b, i);
      SumOut(values, a, |a| - 1);
      assert front + a[|a|..] == front;
    } else {
      assert |multiset(a)| == 0 && |multiset(b)| == |b|;
      assert a == b;
    }
  }

  // ---------- The coins in reach ----------

  /** The stacks of worth in a list of things and inside them. */
  function Coins(values: Values, things: seq<Thing>): seq<Stack> {
    if things == [] then [] else CoinsOf(values, things[0]) + Coins(values, things[1..])
  }

  function CoinsOf(values: Values, t: Thing): seq<Stack> {
    if t.isContainer then Coins(values, t.kids)
    else if Worth(values, t.stack) != 0 then [t.stack]
    else []
  }

  function CoinsIn(values: Values, boxes: seq<seq<Thing>>): seq<Stack> {
    if boxes == [] then [] else CoinsIn(values, boxes[..|boxes| - 1]) + Coins(values, boxes[|boxes| - 1])
  }

  function Nodes(things: seq<Thing>): nat {
    if things == [] then 0 else 1 + Nodes(things[0].kids) + Nodes(things[1..])
  }

  function NodesIn(boxes: seq<seq<Thing>>): nat {
    if boxes == [] then 0 else NodesIn(boxes[..|boxes| - 1]) + 1 + Nodes(boxes[|boxes| - 1])
  }

  lemma CoinsInMore(values: Values, boxes: seq<seq<Thing>>, box: seq<Thing>)
    ensures CoinsIn(values, boxes + [box]) == CoinsIn(values, boxes) + Coins(values, box)
    ensures NodesIn(boxes + [box]) == NodesIn(boxes) + 1 + Nodes(box)
  {
    assert (boxes + [box])[..|boxes|] == boxes;
  }

  lemma {:induction false} CoinsInFirst(values: Values, boxes: seq<seq<Thing>>)
    requires boxes != []
    ensures CoinsIn(values, boxes) == Coins(values, boxes[0]) + CoinsIn(values, boxes[1..])
    ensures NodesIn(boxes) == 1 + Nodes(boxes[0]) + NodesIn(boxes[1..])
    decreases |boxes|
  {
    hide Coins, Nodes;
    var front, last := boxes[..|boxes| - 1], boxes[|boxes| - 1];
    if front == [] {
      assert CoinsIn(values, front) == [] && boxes[1..] == [];
      assert Coins(values, last) + [] == Coins(values, last) == [] + Coins(values, last);
    } else {
      CoinsInFirst(values, front);
      assert boxes[1..][..|boxes| - 2] == front[1..] && boxes[1..][|boxes| - 2] == last;
      assert CoinsIn(values, boxes[1..]) == CoinsIn(values, front[1..]) + Coins(values, last);
    }
  }

  /** Counts one list of things; what is in its containers is left for later. */
  method CountLevel(values: Values, list: seq<Thing>, moneyCount0: nat, boxes0: seq<seq<Thing>>)
    returns (ok: bool, moneyCount: nat, boxes: seq<seq<Thing>>)
    requires moneyCount0 < WORD
    ensures moneyCount < WORD
    ensures ok ==> moneyCount + Sum(values, CoinsIn(values, boxes))
                   == moneyCount0 + Sum(values, CoinsIn(values, boxes0)) + Sum(values, Coins(values, list))
    ensures ok ==> NodesIn(boxes) <= NodesIn(boxes0) + Nodes(list)
    ensures !ok ==> moneyCount0 + Sum(values, Coins(values, list)) + Sum(values, CoinsIn(values, boxes0)) >= WORD
  {
    hide Worth, Sum, CoinsIn, NodesIn;
    moneyCount, boxes := moneyCount0, boxes0;
    assert list[0..] == list;
    for i := 0 to |list|
      invariant moneyCount < WORD
      invariant moneyCount + Sum(values, CoinsIn(values, boxes)) + Sum(values, Coins(values, list[i..]))
                == moneyCount0 + Sum(values, CoinsIn(values, boxes0)) + Sum(values, Coins(values, list))
      invariant NodesIn(boxes) + Nodes(list[i..]) <= NodesIn(boxes0) + Nodes(list)
    {
      var item := list[i];
      assert list[i..][1..] == list[i + 1..];
      SumJoin(values, CoinsOf(values, item), Coins(values, list[i + 1..]));
      if item.isContainer {
        CoinsInMore(values, boxes, item.kids);
        SumJoin(values, CoinsIn(values, boxes), Coins(values, item.kids));
        boxes := boxes + [item.kids];
      } else {
        var worth := Worth(values, item.stack);
        SumOne(values, item.stack);
        SumNone(values);
        if worth != 0 {
          if WORD - 1 - worth < moneyCount {
            return false, moneyCount, boxes;
          }
          moneyCount := moneyCount + worth;
        }
      }
    }
    SumNone(values);
    return true, moneyCount, boxes;
  }

  lemma SumNone(values: Values)
    ensures Sum(values, []) == 0 && Coins(values, []) == [] && CoinsIn(values, []) == []
  {
  }

  /** The money in reach, or the largest number there is room for. */
  method GetMoney(values: Values, things: seq<Thing>) returns (money: nat)
    ensures var total := Sum(values, Coins(values, things));
      money == if total < WORD then total else WORD - 1
  {
    hide Worth, Sum, Coins, CoinsIn, NodesIn, Nodes;
    SumNone(values);
    var ok, moneyCount, boxes := CountLevel(values, things, 0, []);
    if !ok {
      return WORD - 1;
    }
    while boxes != []
      invariant 0 <= moneyCount < WORD
      invariant moneyCount + Sum(values, CoinsIn(values, boxes)) == Sum(values, Coins(values, things))
      decreases NodesIn(boxes)
    {
      CoinsInFirst(values, boxes);
      SumJoin(values, Coins(values, boxes[0]), CoinsIn(values, boxes[1..]));
      ok, moneyCount, boxes := CountLevel(values, boxes[0], moneyCount, boxes[1..]);
      if !ok {
        return WORD - 1;
      }
    }
    return moneyCount;
  }

  // ---------- Paying ----------

  predicate Ascending(values: Values, coins: seq<Stack>) {
    forall i, j :: 0 <= i < j < |coins| ==> Worth(values, coins[i]) <= Worth(values, coins[j])
  }

  /** Puts a stack into a list ordered by worth, after those of the same worth. */
  method Insert(values: Values, moneyMap: seq<Stack>, s: Stack) returns (more: seq<Stack>)
    requires Ascending(values, moneyMap)
    ensures Ascending(values, more) && multiset(more) == multiset(moneyMap) + multiset{s}
  {
    hide Worth;
    var i := 0;
    while i < |moneyMap| && Worth(values, moneyMap[i]) <= Worth(values, s)
      invariant 0 <= i <= |moneyMap| && forall k :: 0 <= k < i ==> Worth(values, moneyMap[k]) <= Worth(values, s)
    {
      i := i + 1;
    }
    more := moneyMap[..i] + [s] + moneyMap[i..];
    assert moneyMap == moneyMap[..i] + moneyMap[i..];
  }

  /** Collects the stacks of one list of things by worth, and adds up their worth in a word. */
  method GatherLevel(values: Values, list: seq<Thing>, moneyMap0: seq<Stack>, moneyCount0: nat, boxes0: seq<seq<Thing>>)
    returns (moneyMap: seq<Stack>, moneyCount: nat, boxes: seq<seq<Thing>>)
    requires Ascending(values, moneyMap0)
    ensures Ascending(values, moneyMap)
    ensures multiset(moneyMap) + multiset(CoinsIn(values, boxes))
            == multiset(moneyMap0) + multiset(CoinsIn(values, boxes0)) + multiset(Coins(values, list))
    ensures moneyCount0 == Sum(values, moneyMap0) % WORD ==> moneyCount == Sum(values, moneyMap) % WORD
    ensures NodesIn(boxes) <= NodesIn(boxes0) + Nodes(list)
  {
    hide Worth, Sum, Coins, CoinsIn, Nodes, NodesIn, Ascending;
    moneyMap, moneyCount, boxes := moneyMap0, moneyCount0, boxes0;
    assert list[0..] == list;
    for i := 0 to |list|
      invariant Ascending(values, moneyMap)
      invariant multiset(moneyMap) + multiset(CoinsIn(values, boxes)) + multiset(Coins(values, list[i..]))
                == multiset(moneyMap0) + multiset(CoinsIn(values, boxes0)) + multiset(Coins(values, list))
      invariant moneyCount0 == Sum(values, moneyMap0) % WORD ==> moneyCount == Sum(values, moneyMap) % WORD
      invariant NodesIn(boxes) + Nodes(list[i..]) <= NodesIn(boxes0) + Nodes(list)
    {
      var item := list[i];
      LevelStep(values, list, i);
      if item.isContainer {
        BoxesMore(values, boxes, item.kids);
        boxes := boxes + [item.kids];
      } else {
        var worth := Worth(values, item.stack);
        if worth != 0 {
          moneyCount := (moneyCount + worth) % WORD;
          ghost var before := moneyMap;
          moneyMap := Insert(values, moneyMap, item.stack);
          Inserted(values, before, item.stack, moneyMap);
        }
      }
    }
    LevelEnd(values, list);
  }

  lemma LevelEnd(values: Values, list: seq<Thing>)
    ensures Coins(values, list[|list|..]) == [] && Nodes(list[|list|..]) == 0
  {
  }

  lemma BoxesMore(values: Values, boxes: seq<seq<Thing>>, box: seq<Thing>)
    ensures multiset(CoinsIn(values, boxes + [box])) == multiset(CoinsIn(values, boxes)) + multiset(Coins(values, box))
    ensures NodesIn(boxes + [box]) == NodesIn(boxes) + 1 + Nodes(box)
  {
    hide Coins, CoinsIn, Nodes, NodesIn;
    CoinsInMore(values, boxes, box);
  }

  lemma LevelStep(values: Values, list: seq<Thing>, i: nat)
    requires i < |list|
    ensures var item := list[i];
      multiset(Coins(values, list[i..]))
      == (if item.isContainer then multiset(Coins(values, item.kids))
          else if Worth(values, item.stack) != 0 then multiset{item.stack}
          else multiset{}) + multiset(Coins(values, list[i + 1..]))
    ensures Nodes(list[i..]) == 1 + Nodes(list[i].kids) + Nodes(list[i + 1..])
  {
    hide Worth;
    assert list[i..][1..] == list[i + 1..];
    assert Coins(values, list[i..]) == CoinsOf(values, list[i]) + Coins(values, list[i + 1..]);
  }

  lemma Inserted(values: Values, before: seq<Stack>, s: Stack, after: seq<Stack>)
    requires multiset(after) == multiset(before) + multiset{s}
    ensures Sum(values, after) == Sum(values, before) + Worth(values, s)
    ensures (Sum(values, before) % WORD + Worth(values, s)) % WORD == Sum(values, after) % WORD
  {
    hide Worth, Sum;
    SumPermuted(values, after, before + [s]);
    SumJoin(values, before, [s]);
    SumOne(values, s);
  }

  method Gather(values: Values, things: seq<Thing>) returns (moneyMap: seq<Stack>, moneyCount: nat)
    ensures Ascending(values, moneyMap) && multiset(moneyMap) == multiset(Coins(values, things))
    ensures moneyCount == Sum(values, moneyMap) % WORD
  {
    hide Worth, Sum, Coins, CoinsIn, NodesIn, Nodes;
    SumNone(values);
    var boxes;
    moneyMap, moneyCount, boxes := GatherLevel(values, things, [], 0, []);
    while boxes != []
      invariant Ascending(values, moneyMap) && 0 <= moneyCount == Sum(values, moneyMap) % WORD
      invariant multiset(moneyMap) + multiset(CoinsIn(values, boxes)) == multiset(Coins(values, things))
      decreases NodesIn(boxes)
    {
      CoinsInFirst(values, boxes);
      moneyMap, moneyCount, boxes := GatherLevel(values, boxes[0], moneyMap, moneyCount, boxes[1..]);
    }
  }

  /** A kind of coin that can be given out. */
  datatype Coin = Coin(worth: nat, id: nat)

  predicate MintOf(values: Values, mint: seq<Coin>) {
    forall c :: c in mint ==> 0 < c.worth == values(c.id)
  }

  /** What is left of an amount that is changed into coins, the first kind first. */
  function Rest(mint: seq<Coin>, money: nat): nat {
    if mint == [] then money
    else if mint[0].worth == 0 then Rest(mint[1..], money)
    else Rest(mint[1..], money % mint[0].worth)
  }

  /** Nothing is left if there is a coin worth one. */
  lemma {:induction false} UnitLeavesNothing(mint: seq<Coin>, money: nat)
    requires exists c :: c in mint && c.worth == 1
    ensures Rest(mint, money) == 0
    decreases |mint|
  {
    if mint[0].worth == 1 {
      NothingLeft(mint[1..]);
    } else {
      assert mint == [mint[0]] + mint[1..];
      UnitLeavesNothing(mint[1..], if mint[0].worth == 0 then money else money % mint[0].worth);
    }
  }

  lemma {:induction false} NothingLeft(mint: seq<Coin>)
    ensures Rest(mint, 0) == 0
    decreases |mint|
  {
    if mint != [] {
      NothingLeft(mint[1..]);
    }
  }

  /** So many coins of a kind, in stacks of a hundred and a smaller one at the end. */
  function Stacks(id: nat, count: nat): (r: seq<Stack>)
    ensures forall k :: 0 <= k < |r| ==> r[k].id == id && 1 <= r[k].count <= STACK && (k < |r| - 1 ==> r[k].count == STACK)
  {
    if count == 0 then []
    else if count <= STACK then [Stack(id, count)]
    else [Stack(id, STACK)] + Stacks(id, count - STACK)
  }

  /** The stacks an amount is given out in: of every kind as many as go into what is left. */
  function Coinage(mint: seq<Coin>, money: nat): seq<Stack> {
    if mint == [] then []
    else if mint[0].worth == 0 then Coinage(mint[1..], money)
    else Stacks(mint[0].id, money / mint[0].worth) + Coinage(mint[1..], money % mint[0].worth)
  }

  /** Stacks come one after the other, each into the inventory if it fits and to the ground otherwise. */
  function Spread(coins: seq<Stack>, dropped: seq<Stack>, list: seq<Stack>, fits: nat -> bool, n: nat): (seq<Stack>, seq<Stack>)
    decreases |list|
  {
    if list == [] then (coins, dropped)
    else if fits(n) then Spread(coins + [list[0]], dropped, list[1..], fits, n + 1)
    else Spread(coins, dropped + [list[0]], list[1..], fits, n + 1)
  }

  /** The first stack of what is given out. */
  lemma SpreadFirst(coins: seq<Stack>, dropped: seq<Stack>, s: Stack, list: seq<Stack>, fits: nat -> bool, n: nat)
    ensures Spread(coins, dropped, [s] + list, fits, n)
            == if fits(n) then Spread(coins + [s], dropped, list, fits, n + 1) else Spread(coins, dropped + [s], list, fits, n + 1)
  {
    assert ([s] + list)[1..] == list;
  }

  lemma NoStacks(id: nat, tail: seq<Stack>)
    ensures Stacks(id, 0) + tail == tail
  {
  }

  lemma NothingToGive(mint: seq<Coin>, money: nat, coins: seq<Stack>, dropped: seq<Stack>, fits: nat -> bool, n: nat)
    ensures Spread(coins, dropped, Coinage(mint[|mint|..], money), fits, n) == (coins, dropped)
  {
  }

  lemma StacksFirst(id: nat, count: nat, tail: seq<Stack>)
    requires count > 0
    ensures var m := if count < STACK then count else STACK;
      Stacks(id, count) + tail == [Stack(id, m)] + (Stacks(id, count - m) + tail)
  {
  }

  lemma {:induction false} CoinageNone(mint: seq<Coin>)
    ensures Coinage(mint, 0) == []
    decreases |mint|
  {
    if mint != [] {
      CoinageNone(mint[1..]);
    }
  }

  lemma CoinageFirst(mint: seq<Coin>, money: nat)
    requires mint != [] && mint[0].worth > 0
    ensures Coinage(mint, money) == Stacks(mint[0].id, money / mint[0].worth) + Coinage(mint[1..], money % mint[0].worth)
    ensures money < mint[0].worth ==> Coinage(mint, money) == Coinage(mint[1..], money)
  {
    if money < mint[0].worth {
      SmallRemainder(money, mint[0].worth);
      assert money / mint[0].worth == 0;
    }
  }

  /** After each kind less is left than one coin of it. */
  lemma {:induction false} RestBelow(mint: seq<Coin>, money: nat, i: nat)
    requires i < |mint| && forall c :: c in mint ==> c.worth > 0
    ensures Rest(mint[..i + 1], money) == Rest(mint[..i], money) % mint[i].worth < mint[i].worth
    decreases i
  {
    assert mint[0] in mint && mint[i] in mint;
    if i == 0 {
      assert mint[..1][1..] == [] && mint[..0] == [];
    } else {
      assert forall c :: c in mint[1..] ==> c in mint;
      RestBelow(mint[1..], money % mint[0].worth, i - 1);
      assert mint[..i + 1][1..] == mint[1..][..i] && mint[..i][1..] == mint[1..][..i - 1];
    }
  }

  /** The coins within reach of someone, and those that were dropped on the ground there. */
  class Purse {
    const values: Values
    var coins: seq<Stack>
    var dropped: seq<Stack>

    constructor (values: Values, coins: seq<Stack>)
      ensures this.values == values && this.coins == coins && dropped == []
    {
      this.values, this.coins, dropped := values, coins, [];
    }

    ghost function Total(): nat
      reads this
    {
      Sum(values, coins) + Sum(values, dropped)
    }

    /** A new stack goes into the inventory if it fits, and to the ground otherwise. */
    method AddStack(s: Stack, fits: bool)
      modifies this
      ensures Total() == old(Total()) + Worth(values, s)
      ensures if fits then coins == old(coins) + [s] && dropped == old(dropped) else coins == old(coins) && dropped == old(dropped) + [s]
    {
      hide Worth, Sum;
      SumOne(values, s);
      if fits {
        SumJoin(values, coins, [s]);
        coins := coins + [s];
      } else {
        SumJoin(values, dropped, [s]);
        dropped := dropped + [s];
      }
    }

    /** Gives an amount in coins, the dearest first; `fits` tells for each new stack whether there is room. */
    method AddMoney(mint: seq<Coin>, amount: nat, fits: nat -> bool)
      requires MintOf(values, mint) && amount < WORD
      modifies this
      ensures Total() == old(Total()) + amount - Rest(mint, amount)
      ensures Issued(old(coins), coins) && Issued(old(dropped), dropped)
      ensures (coins, dropped) == Spread(old(coins), old(dropped), Coinage(mint, amount), fits, 0)
    {
      hide Sum, Issued, MintOf, Coinage, Spread, Stacks;
      var money, n := amount, 0;
      IssuedNone(coins);
      IssuedNone(dropped);
      assert mint[0..] == mint;
      for i := 0 to |mint|
        invariant 0 <= money <= amount && Total() == old(Total()) + amount - money && Rest(mint[i..], money) == Rest(mint, amount)
        invariant Issued(old(coins), coins) && Issued(old(dropped), dropped)
        invariant Spread(old(coins), old(dropped), Coinage(mint, amount), fits, 0)
                  == Spread(coins, dropped, Coinage(mint[i..], money), fits, n)
      {
        assert mint[i..][1..] == mint[i + 1..] && mint[i] in mint;
        MintWorth(values, mint, i);
        CoinageFirst(mint[i..], money);
        if money >= mint[i].worth {
          var count := money / mint[i].worth;
          Divided(money, mint[i].worth);
          ghost var coins1, dropped1 := coins, dropped;
          n := Issue(mint[i], count, fits, n, Coinage(mint[i + 1..], money % mint[i].worth));
          IssuedThen(old(coins), coins1, coins);
          IssuedThen(old(dropped), dropped1, dropped);
          money := money - count * mint[i].worth;
        } else {
          RestSmall(mint[i..], money);
        }
      }
      NothingToGive(mint, money, coins, dropped, fits, n);
    }

    /** Gives so many coins of a kind, in stacks of at most a hundred. */
    method Issue(coin: Coin, amount: nat, fits: nat -> bool, n0: nat, ghost tail: seq<Stack>) returns (n: nat)
      requires 0 < coin.worth == values(coin.id) && amount * coin.worth < WORD
      modifies this
      ensures Total() == old(Total()) + amount * coin.worth
      ensures Issued(old(coins), coins) && Issued(old(dropped), dropped)
      ensures Spread(old(coins), old(dropped), Stacks(coin.id, amount) + tail, fits, n0) == Spread(coins, dropped, tail, fits, n)
    {
      hide Sum, Spread, Stacks;
      var count := amount;
      n := n0;
      IssuedNone(coins);
      IssuedNone(dropped);
      while count > 0
        invariant 0 <= count <= amount && Total() == old(Total()) + (amount - count) * coin.worth
        invariant Issued(old(coins), coins) && Issued(old(dropped), dropped)
        invariant Spread(old(coins), old(dropped), Stacks(coin.id, amount) + tail, fits, n0)
                  == Spread(coins, dropped, Stacks(coin.id, count) + tail, fits, n)
      {
        var moneyCount := if count < STACK then count else STACK;
        StackWorth(values, coin, moneyCount, count, amount);
        StacksFirst(coin.id, count, tail);
        SpreadFirst(coins, dropped, Stack(coin.id, moneyCount), Stacks(coin.id, count - moneyCount) + tail, fits, n);
        AddStack(Stack(coin.id, moneyCount), fits(n));
        n := n + 1;
        count := count - moneyCount;
      }
      NoStacks(coin.id, tail);
    }

    /** Takes a stack out of the inventory. */
    method TakeOut(s: Stack)
      requires s in coins
      modifies this`coins
      ensures multiset(coins) == multiset(old(coins)) - multiset{s}
      ensures Sum(values, coins) + Worth(values, s) == old(Sum(values, coins))
    {
      hide Worth, Sum;
      var i := 0;
      while coins[i] != s
        invariant 0 <= i < |coins| && s in coins[i..]
        decreases |coins| - i
      {
        i := i + 1;
      }
      SumOut(values, coins, i);
      assert coins == coins[..i] + [coins[i]] + coins[i + 1..];
      coins := coins[..i] + coins[i + 1..];
    }

    /** Pays with one stack, and gives back what it is worth too much. */
    method PayWith(item: Stack, money0: nat, mint: seq<Coin>, fits: nat -> bool) returns (money: nat, ghost change: nat, ghost left: seq<Stack>)
      requires item in coins && money0 > 0 && MintOf(values, mint)
      modifies this
      ensures Worth(values, item) <= money0 ==>
        && money == money0 - Worth(values, item) && change == 0
        && multiset(coins) == multiset(old(coins)) - multiset{item}
        && Sum(values, coins) + Worth(values, item) == old(Sum(values, coins)) && dropped == old(dropped)
      ensures Worth(values, item) > money0 ==> money == 0 && Total() + money0 + Rest(mint, change) == old(Total())
      ensures multiset(left) == multiset(old(coins)) - multiset{item}
      ensures change == if Worth(values, item) > money0 then Worth(values, item) - money0 else 0
      ensures (coins, dropped) == if change > 0 then Spread(left, old(dropped), Coinage(mint, change), fits, 0) else (left, old(dropped))
    {
      hide Worth, Sum, Rest, MintOf, Issued, Coinage, Spread;
      money, change := money0, 0;
      TakeOut(item);
      left := coins;
      if Worth(values, item) <= money {
        money := money - Worth(values, item);
      } else {
        change := Worth(values, item) - money;
        AddMoney(mint, Worth(values, item) - money, fits);
        money := 0;
      }
    }

    /** Pays with the stacks in reach, the cheapest first; what the last one is worth too much is given back.
        It works exactly if the sum, kept in a word, is enough.
     */
    method RemoveMoney(things: seq<Thing>, mint: seq<Coin>, amount: nat, fits: nat -> bool)
      returns (ok: bool, ghost change: nat, ghost taken: seq<Stack>, ghost left: seq<Stack>)
      requires multiset(coins) == multiset(Coins(values, things)) && MintOf(values, mint) && amount < WORD
      modifies this
      ensures ok == (amount == 0 || old(Sum(values, coins)) % WORD >= amount)
      ensures !ok || amount == 0 ==> coins == old(coins) && dropped == old(dropped)
      ensures ok ==> Total() + amount + Rest(mint, change) == old(Total())
      ensures ok && (exists c :: c in mint && c.worth == 1) ==> Total() + amount == old(Total())
      // the cheapest stacks pay, no more of them than it takes, and only what the last is worth too much comes back
      ensures ok && amount > 0 ==>
        && multiset(old(coins)) == multiset(taken) + multiset(left) && Cheapest(values, taken, left)
        && taken != [] && Sum(values, taken[..|taken| - 1]) < amount <= Sum(values, taken)
        && change == Sum(values, taken) - amount
        && (coins, dropped) == Spread(left, old(dropped), Coinage(mint, change), fits, 0)
    {
      hide Worth, Sum, Coins, Rest, MintOf, Ascending, Cheapest, Spread, Coinage;
      change, taken, left := 0, [], coins;
      NothingLeft(mint);
      if amount == 0 { return true, 0, [], coins; }
      var moneyMap, moneyCount := Gather(values, things);
      SumPermuted(values, moneyMap, coins);
      if moneyCount < amount { return false, 0, [], coins; }
      EnoughInAll(Sum(values, coins), amount);
      ghost var i;
      i, change, left := PayCheapest(moneyMap, mint, amount, fits);
      taken := moneyMap[..i];
      CheapestFirst(values, moneyMap, i);
      assert moneyMap == moneyMap[..i] + moneyMap[i..];
      CheapestSame(values, taken, moneyMap[i..], left);
      if exists c :: c in mint && c.worth == 1 {
        UnitLeavesNothing(mint, change);
      }
      ok := true;
    }

    /** Takes one stack after the other until the amount is paid. */
    method PayCheapest(moneyMap: seq<Stack>, mint: seq<Coin>, amount: nat, fits: nat -> bool)
      returns (ghost i: nat, ghost change: nat, ghost left: seq<Stack>)
      requires multiset(coins) == multiset(moneyMap) && MintOf(values, mint) && 0 < amount <= Sum(values, coins)
      modifies this
      ensures i <= |moneyMap| && multiset(left) == multiset(moneyMap[i..])
      ensures Paid(moneyMap[..i], amount, change) && Returned(left, old(dropped), mint, change, fits)
      ensures Total() + amount + Rest(mint, change) == old(Total())
    {
      hide Worth, Sum, Rest, MintOf, Spread, Coinage, Paid, Returned;
      var money, k := amount, 0;
      change, left := 0, coins;
      ghost var start, ground := Sum(values, coins), Sum(values, dropped);
      assert moneyMap[0..] == moneyMap && moneyMap[..0] == [];
      SumNone(values);
      NothingLeft(mint);
      while k < |moneyMap| && money > 0
        invariant 0 <= k <= |moneyMap| && 0 <= money <= amount && multiset(left) == multiset(moneyMap[k..])
        invariant money > 0 ==> change == 0 && coins == left && dropped == old(dropped)
        invariant money > 0 ==> Sum(values, coins) + (amount - money) == start && Sum(values, moneyMap[..k]) + money == amount
        invariant money == 0 ==> Sum(values, coins) + Sum(values, dropped) + amount + Rest(mint, change) == start + ground
        invariant money == 0 ==> Paid(moneyMap[..k], amount, change) && Returned(left, old(dropped), mint, change, fits)
        decreases |moneyMap| - k
      {
        var item := moneyMap[k];
        FirstLeft(coins, moneyMap, k);
        SumPrefix(values, moneyMap, k);
        money, change, left := PayWith(item, money, mint, fits);
        PaidBy(moneyMap, k, amount);
        ReturnedIs(left, old(dropped), mint, change, fits);
        k := k + 1;
      }
      if k == |moneyMap| && multiset(coins) == multiset(moneyMap[k..]) {
        NothingRemains(values, coins, moneyMap[k..]);
      }
      i := k;
    }

    lemma PaidBy(all: seq<Stack>, k: nat, amount: nat)
      requires k < |all|
      ensures Sum(values, all[..k + 1]) == Sum(values, all[..k]) + Worth(values, all[k])
      ensures Sum(values, all[..k]) < amount <= Sum(values, all[..k + 1]) ==> Paid(all[..k + 1], amount, Sum(values, all[..k + 1]) - amount)
    {
      hide Worth, Sum;
      SumPrefix(values, all, k);
    }

    lemma ReturnedIs(left: seq<Stack>, ground: seq<Stack>, mint: seq<Coin>, change: nat, fits: nat -> bool)
      ensures (coins, dropped) == (if change > 0 then Spread(left, ground, Coinage(mint, change), fits, 0) else (left, ground))
              ==> Returned(left, ground, mint, change, fits)
    {
      CoinageNone(mint);
    }

    /** Some stacks pay an amount, the last of them too much by the change. */
    ghost predicate Paid(taken: seq<Stack>, amount: nat, change: nat) {
      && taken != [] && Sum(values, taken[..|taken| - 1]) < amount <= Sum(values, taken)
      && change == Sum(values, taken) - amount
    }

    /** What is left, and the change. */
    ghost predicate Returned(left: seq<Stack>, ground: seq<Stack>, mint: seq<Coin>, change: nat, fits: nat -> bool)
      reads this
    {
      (coins, dropped) == Spread(left, ground, Coinage(mint, change), fits, 0)
    }
  }

  /** No stack of the first is worth more than one of the second. */
  predicate Cheapest(values: Values, taken: seq<Stack>, left: seq<Stack>) {
    forall s, t :: s in taken && t in left ==> Worth(values, s) <= Worth(values, t)
  }

  lemma CheapestFirst(values: Values, all: seq<Stack>, i: nat)
    requires Ascending(values, all) && i <= |all|
    ensures Cheapest(values, all[..i], all[i..])
  {
    hide Worth;
  }

  lemma CheapestSame(values: Values, taken: seq<Stack>, a: seq<Stack>, b: seq<Stack>)
    requires Cheapest(values, taken, a) && multiset(a) == multiset(b)
    ensures Cheapest(values, taken, b)
  {
    hide Worth;
    forall t | t in b
      ensures t in a
    {
      assert t in multiset(b);
    }
  }

  lemma SumPrefix(values: Values, all: seq<Stack>, i: nat)
    requires i < |all|
    ensures Sum(values, all[..i + 1]) == Sum(values, all[..i]) + Worth(values, all[i])
    ensures all[..i + 1][..|all[..i + 1]| - 1] == all[..i]
  {
    hide Worth;
    assert all[..i + 1][..i] == all[..i];
  }

  lemma FirstLeft(coins: seq<Stack>, moneyMap: seq<Stack>, i: nat)
    requires i < |moneyMap| && multiset(coins) == multiset(moneyMap[i..])
    ensures moneyMap[i] in coins && multiset(coins) - multiset{moneyMap[i]} == multiset(moneyMap[i + 1..])
  {
    assert moneyMap[i..] == [moneyMap[i]] + moneyMap[i + 1..];
    assert moneyMap[i] in multiset(coins);
  }

  lemma NothingRemains(values: Values, coins: seq<Stack>, rest: seq<Stack>)
    requires multiset(coins) == multiset(rest) && rest == []
    ensures Sum(values, coins) == 0
  {
    hide Worth;
    SumPermuted(values, coins, rest);
  }

  lemma EnoughInAll(sum: nat, amount: nat)
    requires sum % WORD >= amount
    ensures sum >= amount
  {
  }

  /** A list of coins has grown by stacks of at most a hundred. */
  predicate Issued(before: seq<Stack>, after: seq<Stack>) {
    && |before| <= |after| && after[..|before|] == before
    && forall k :: |before| <= k < |after| ==> 1 <= after[k].count <= STACK
  }

  lemma IssuedThen(a: seq<Stack>, b: seq<Stack>, c: seq<Stack>)
    requires Issued(a, b) && Issued(b, c)
    ensures Issued(a, c)
  {
    assert c[..|a|] == c[..|b|][..|a|];
  }

  lemma MintWorth(values: Values, mint: seq<Coin>, i: nat)
    requires MintOf(values, mint) && i < |mint|
    ensures 0 < mint[i].worth == values(mint[i].id)
  {
    assert mint[i] in mint;
  }

  lemma RestSmall(mint: seq<Coin>, money: nat)
    requires mint != [] && money < mint[0].worth
    ensures Rest(mint, money) == Rest(mint[1..], money)
  {
    hide Rest;
    SmallRemainder(money, mint[0].worth);
    RestFirst(mint, money);
  }

  lemma SmallRemainder(n: nat, d: nat)
    requires n < d
    ensures n % d == n
  {
  }

  lemma RestFirst(mint: seq<Coin>, money: nat)
    requires mint != [] && mint[0].worth > 0
    ensures Rest(mint, money) == Rest(mint[1..], money % mint[0].worth)
  {
  }

  lemma IssuedNone(coins: seq<Stack>)
    ensures Issued(coins, coins)
  {
  }

  lemma Divided(money: nat, worth: nat)
    requires worth > 0
    ensures money - (money / worth) * worth == money % worth && (money / worth) * worth <= money
  {
  }

  lemma StackWorth(values: Values, coin: Coin, m: nat, count: nat, amount: nat)
    requires coin.worth == values(coin.id) && m <= count <= amount && amount * coin.worth < WORD
    ensures Worth(values, Stack(coin.id, m)) == m * coin.worth
    ensures (amount - (count - m)) * coin.worth == (amount - count) * coin.worth + m * coin.worth
  {
    assert (amount - m) * coin.worth >= 0;
    assert m * coin.worth <= amount * coin.worth;
  }

  /** Two coins of half a word each are the most that can be counted, and not enough to pay one. */
  method RefusedWithPlenty() returns (purse: Purse, money: nat, ok: bool)
    ensures purse.coins == [Stack(1, 1), Stack(1, 1)] && money == WORD - 1 && !ok
  {
    hide Coins, Sum, Rest;
    var values: Values := id => WORD / 2;
    var coins := [Stack(1, 1), Stack(1, 1)];
    var things := [Thing(Stack(1, 1), false, []), Thing(Stack(1, 1), false, [])];
    purse := new Purse(values, coins);
    TwoHalves(values);
    money := GetMoney(values, things);
    ghost var change, taken, left;
    ok, change, taken, left := purse.RemoveMoney(things, [], 1, n => true);
  }

  lemma TwoHalves(values: Values)
    requires values(1) == WORD / 2
    ensures var s := Stack(1, 1);
      var t := Thing(s, false, []);
      Coins(values, [t, t]) == [s, s] && Sum(values, [s, s]) == WORD
  {
    var s := Stack(1, 1);
    var t := Thing(s, false, []);
    assert Coins(values, [t]) == CoinsOf(values, t) + Coins(values, []);
    assert [t, t][1..] == [t];
    assert [s, s][..1] == [s];
    SumOne(values, s);
    assert Worth(values, s) == WORD / 2;
  }
}
