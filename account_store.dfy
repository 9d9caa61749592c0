/**
 * The monolith's `users` and `sellerprofiles` collections, which the user and
 * admin handlers read and save. Both are reached by `_id`; seller profiles
 * are also reached by `userId`, which their unique index makes a key too.
 */
module AccountStore {
  import opened Common
  import opened UserModel
  import opened SellerProfileModel

  datatype Accounts = Accounts(users: map<Id, User>, profiles: map<Id, SellerProfile>)

  predicate Valid(a: Accounts) {
    OnePerUser(a.profiles)
  }

  /** The profiles left once the (at most one) profile of userId is deleted: `deleteOne({ userId })`. */
  function WithoutProfileOf(profiles: map<Id, SellerProfile>, userId: Id): (r: map<Id, SellerProfile>)
    requires OnePerUser(profiles)
    ensures OnePerUser(r)
    ensures forall k :: k in r <==> k in profiles && profiles[k].userId != userId
    ensures forall k :: k in r ==> r[k] == profiles[k]
    ensures |profiles| - 1 <= |r| <= |profiles|
  {
    var r := map k | k in profiles && profiles[k].userId != userId :: profiles[k];
    AtMostOneRemoved(profiles, userId, r);
    r
  }

  /** Dropping the profiles of one user from profiles with one profile per user drops at most one. */
  lemma AtMostOneRemoved(profiles: map<Id, SellerProfile>, userId: Id, r: map<Id, SellerProfile>)
    requires OnePerUser(profiles)
    requires forall k :: k in r <==> k in profiles && profiles[k].userId != userId
    requires forall k :: k in r ==> r[k] == profiles[k]
    ensures OnePerUser(r)
    ensures |profiles| - 1 <= |r| <= |profiles|
  {
    assert |r| == |r.Keys| && |profiles| == |profiles.Keys|;
    if exists k :: k in profiles && profiles[k].userId == userId {
      var k :| k in profiles && profiles[k].userId == userId;
      assert r.Keys == profiles.Keys - {k};
    } else {
      assert r.Keys == profiles.Keys;
    }
  }

  /** `findOneAndUpdate({ userId }, { companyName })`: the profile of userId, if any, gets the company name. */
  function WithCompanyName(profiles: map<Id, SellerProfile>, userId: Id, companyName: string): (r: map<Id, SellerProfile>)
    requires OnePerUser(profiles)
    ensures OnePerUser(r) && r.Keys == profiles.Keys
    ensures forall k :: k in r ==>
      r[k] == if profiles[k].userId == userId then profiles[k].(companyName := companyName) else profiles[k]
  {
    var r := map k | k in profiles :: if profiles[k].userId == userId then profiles[k].(companyName := companyName) else profiles[k];
    assert forall k :: k in r ==> r[k].userId == profiles[k].userId;
    r
  }

  /** The live database. */
  class AccountDb {
    var users: map<Id, User>
    var profiles: map<Id, SellerProfile>

    function State(): Accounts
      reads this
    {
      Accounts(users, profiles)
    }

    constructor ()
      ensures State() == Accounts(map[], map[]) && Valid(State())
    {
      users, profiles := map[], map[];
    }
  }
}
