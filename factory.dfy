/** The two shared helpers of the views: the PROCESSING guard every
    contract transition but `confirm` goes through, and the role a profile
    gives its account. */
module Factory {
  import opened Common
  import opened UserModels
  import opened RentalModels
  import opened Store
  import opened Integrity
  import opened Validations

  /** `update_status`: a contract still PROCESSING takes `newStatus` and keeps
      everything else; any other contract is left alone and the caller is told
      it was already processed. */
  method UpdateStatus(db: Database, id: ContractId, newStatus: ContractStatus) returns (r: Result<RentalContract>)
    requires db.Valid() && id in db.tables.contracts
    modifies db`tables
    ensures db.Valid()
    ensures old(db.tables.contracts[id].status) != Processing ==>
              r == Err(AlreadyProcessed) && db.tables == old(db.tables)
    ensures old(db.tables.contracts[id].status) == Processing ==>
              && r == Ok(old(db.tables.contracts[id]).(status := newStatus))
              && db.tables == old(db.tables).(contracts := old(db.tables.contracts)[id := r.value])
    ensures r.Ok? && newStatus != Processing ==> db.tables.contracts[id].status != Processing
  {
    var c := db.tables.contracts[id];
    if c.status != Processing {
      return Err(AlreadyProcessed);
    }
    var saved := c.(status := newStatus);
    SetContractOk(db.tables, id, saved);
    db.tables := db.tables.(contracts := db.tables.contracts[id := saved]);
    r := Ok(saved);
  }

  /** `set_role_for_account`: the account takes the role its profile's type
      implies and nothing else about it changes; an argument that is not a
      profile is refused. (The `if not role` test of the source can never fire:
      every role value is a non-empty string.) */
  method SetRoleForAccount(db: Database, profile: Instance, account: UserId) returns (r: Result<Role>)
    requires db.Valid() && account in db.tables.users
    modifies db`tables
    ensures db.Valid()
    ensures !profile.ProfileObject? ==> r == Err(InvalidUser) && db.tables == old(db.tables)
    ensures profile.ProfileObject? ==>
              && r == Ok(CheckUserInstance(profile).value.1)
              && db.tables == old(db.tables).(users := old(db.tables.users)[account := old(db.tables.users[account]).(role := r.value)])
  {
    var found := CheckUserInstance(profile);
    if found.Err? {
      return Err(found.error);
    }
    var role := found.value.1;
    var saved := db.tables.users[account].(role := role);
    SetUserOk(db.tables, account, saved);
    db.tables := db.tables.(users := db.tables.users[account := saved]);
    r := Ok(role);
  }
}
