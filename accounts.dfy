/**
 * Account records: the stored user, the view of it shown to its owner,
 * and the conversion between them.
 */
module Accounts {
  import opened Wrappers
  import opened Math

  /** chrono's `Duration` since the epoch, in whole seconds. */
  datatype Duration = Duration(seconds: int)

  /**
   * The stored account. The keys of `authentication` are the method tags
   * (each meant to be a single bit); the values are a password hash or the
   * account id at a provider.
   */
  datatype FullUser = FullUser(
    id: string,
    username: string,
    email: string,
    createdAt: Duration,
    roles: nat,
    authentication: map<i16, string>,
    verificationToken: Option<string>)

  /** The account as shown to its owner. */
  datatype User = User(
    id: string,
    username: string,
    email: string,
    createdAt: nat,
    roles: nat,
    authentication: i16,
    verified: bool)

  /** The left fold `fold(0, |acc, x| acc | x)` over the tags' bit patterns, in iteration order. */
  function OrFold(keys: seq<i16>): (p: nat)
    ensures p < 0x1_0000
    decreases |keys|
  {
    if |keys| == 0 then 0
    else
      var init := OrFold(keys[..|keys| - 1]);
      Pow2Of15And16();
      OrBound(init, Pattern(keys[|keys| - 1]), 16);
      Or(init, Pattern(keys[|keys| - 1]))
  }

  /** Bit j is set in some key. */
  predicate SomeKeyHas(keys: seq<i16>, j: nat) {
    exists x :: x in keys && Has(Pattern(x), j)
  }

  /** The fold sets exactly the bits that some key sets. */
  lemma {:induction false} OrFoldHas(keys: seq<i16>, j: nat)
    ensures Has(OrFold(keys), j) <==> SomeKeyHas(keys, j)
    decreases |keys|
  {
    if |keys| > 0 {
      var init, last := keys[..|keys| - 1], keys[|keys| - 1];
      assert keys == init + [last];
      OrFoldHas(init, j);
      HasOr(OrFold(init), Pattern(last), j);
      if SomeKeyHas(keys, j) {
        var x :| x in keys && Has(Pattern(x), j);
        if x != last {
          assert x in init;
        }
      }
    } else {
      HasZero(j);
    }
  }

  /**
   * The mask does not depend on the iteration order: any two sequences
   * listing the same keys (in any order, even with repeats) fold alike.
   */
  lemma OrderIrrelevant(xs: seq<i16>, ys: seq<i16>)
    requires forall k :: k in xs <==> k in ys
    ensures OrFold(xs) == OrFold(ys)
  {
    forall j: nat ensures Has(OrFold(xs), j) == Has(OrFold(ys), j) {
      OrFoldHas(xs, j);
      OrFoldHas(ys, j);
      if SomeKeyHas(xs, j) {
        var x :| x in xs && Has(Pattern(x), j);
        assert x in ys;
      }
      if SomeKeyHas(ys, j) {
        var y :| y in ys && Has(Pattern(y), j);
        assert y in xs;
      }
    }
    BitsExtensional(OrFold(xs), OrFold(ys));
  }

  /** The wrap-around of `num_seconds() as usize` on a 64-bit target. */
  const UsizeModulus := 0x1_0000_0000_0000_0000

  /** `n as usize` for an `i64` n: the residue of n modulo 2^64. */
  function AsUsize(n: int): (r: nat)
    ensures r < UsizeModulus
    ensures (r - n) % UsizeModulus == 0
    ensures 0 <= n < UsizeModulus ==> r == n
  {
    n % UsizeModulus
  }

  /** Bit j of the mask is set iff some key of `auth` sets it. */
  ghost predicate MaskBits(mask: i16, auth: map<i16, string>) {
    forall j: nat :: Has(Pattern(mask), j) <==> exists k :: k in auth && Has(Pattern(k), j)
  }

  predicate AllPowersOfTwo(auth: map<i16, string>) {
    forall k :: k in auth ==> IsPowerOfTwo(k)
  }

  /** A power-of-two tag t meets the mask under `&` iff t is a key of `auth`. */
  ghost predicate MaskIndexes(mask: i16, auth: map<i16, string>) {
    forall t: i16 :: IsPowerOfTwo(t) ==> (And(Pattern(mask), Pattern(t)) != 0 <==> t in auth)
  }

  /**
   * `FullUser::to_user`: id, names, email and roles carried over, creation
   * time as whole seconds cast to a 64-bit `usize` (a negative count wraps),
   * the method tags OR-ed into one mask, verified iff no token is pending.
   * `order` is the order in which the map yields its keys, which the map
   * does not fix.
   */
  function ToUser(u: FullUser, order: seq<i16>): (r: User)
    requires forall k :: k in order <==> k in u.authentication
    ensures r.id == u.id && r.username == u.username && r.email == u.email && r.roles == u.roles
    ensures r.verified <==> u.verificationToken.None?
    ensures r.createdAt == AsUsize(u.createdAt.seconds)
    ensures u.authentication == map[] ==> r.authentication == 0
    ensures MaskBits(r.authentication, u.authentication)
    ensures AllPowersOfTwo(u.authentication) ==> MaskIndexes(r.authentication, u.authentication)
  {
    var mask := FromPattern(OrFold(order));
    MaskFacts(u.authentication, order);
    User(u.id, u.username, u.email, AsUsize(u.createdAt.seconds), u.roles,
         mask, u.verificationToken.None?)
  }

  lemma MaskFacts(auth: map<i16, string>, order: seq<i16>)
    requires forall k :: k in order <==> k in auth
    ensures auth == map[] ==> FromPattern(OrFold(order)) == 0
    ensures MaskBits(FromPattern(OrFold(order)), auth)
    ensures AllPowersOfTwo(auth) ==> MaskIndexes(FromPattern(OrFold(order)), auth)
  {
    var p := OrFold(order);
    assert Pattern(FromPattern(p)) == p;
    forall j: nat ensures Has(p, j) <==> exists k :: k in auth && Has(Pattern(k), j) {
      OrFoldHas(order, j);
      if exists k :: k in auth && Has(Pattern(k), j) {
        var k :| k in auth && Has(Pattern(k), j);
        assert k in order;
      }
    }
    assert |order| > 0 ==> order[0] in auth;
    if AllPowersOfTwo(auth) {
      forall t: i16 | IsPowerOfTwo(t) ensures And(p, Pattern(t)) != 0 <==> t in auth {
        IsPowerOfTwoIff(t);
        var k: nat :| k < 15 && t as int == Pow2(k);
        AndPow2(p, k);
        if t in auth {
          HasPow2(k, k);
        }
        if Has(p, k) {
          var x :| x in auth && Has(Pattern(x), k);
          IsPowerOfTwoIff(x);
          var i: nat :| i < 15 && x as int == Pow2(i);
          HasPow2(i, k);
        }
      }
    }
  }

  /** The user view does not depend on the order the map yields its keys in. */
  lemma ToUserOrderIrrelevant(u: FullUser, o1: seq<i16>, o2: seq<i16>)
    requires forall k :: k in o1 <==> k in u.authentication
    requires forall k :: k in o2 <==> k in u.authentication
    ensures ToUser(u, o1) == ToUser(u, o2)
  {
    OrderIrrelevant(o1, o2);
  }

  /** Every tag passes `is_power_of_two` as written. */
  predicate AllTagsPass(auth: map<i16, string>) {
    forall k :: k in auth ==> IsPowerOfTwoAsWritten(k)
  }

  /**
   * A method map holding the tag `i16::MIN`, which the written test lets
   * through, is not made of powers of two, and its mask sets the sign bit:
   * the `authentication` the user sees is negative.
   */
  lemma MinimumTagNegativeMask(u: FullUser, order: seq<i16>)
    requires forall k :: k in order <==> k in u.authentication
    requires MinI16 in u.authentication
    ensures !AllPowersOfTwo(u.authentication)
    ensures ToUser(u, order).authentication < 0
  {
    CorrectedAgreesElsewhere(MinI16);
    var mask := ToUser(u, order).authentication;
    Pow2Of15And16();
    assert Pattern(MinI16) == Pow2(15);
    HasPow2(15, 15);
    assert Has(Pattern(mask), 15);
    if Pattern(mask) < Pow2(15) {
      HasBelow(Pattern(mask), 15, 15);
    }
  }
}
