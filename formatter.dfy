/** formatUser and formatData: from fetched records to display-ready Users. */
module Formatter {
  import opened Users
  import opened Age
  import opened Salary

  /** One fetched record to one User, with `today` the current date and `draw`
      the random salary draw made for this record. */
  function FormatUser(item: RawUser, today: Date, draw: SalaryDraw): (u: User)
    ensures u.uid == item.uid && u.firstName == item.firstName
    ensures u.lastName == item.lastName && u.username == item.username
    ensures 0 <= u.age <= Max0(today.year - item.dateOfBirth.year)
    ensures today.year <= item.dateOfBirth.year ==> u.age == 0
    ensures OnOrBefore(Anniversary(item.dateOfBirth, u.age), today) || u.age == 0
    ensures !OnOrBefore(Anniversary(item.dateOfBirth, u.age + 1), today)
    ensures u.salary == GenerateSalary(draw) && ParseSalary(u.salary) == Some(draw)
  {
    AgeCountsAnniversaries(item.dateOfBirth, today);
    User(item.uid, item.firstName, item.lastName, item.username,
         DateDiffInYears(item.dateOfBirth, today), GenerateSalary(draw))
  }

  /** Formats every record in order, pushing one User per record; `draws[i]`
      is the salary draw for `data[i]`. */
  method FormatData(data: seq<RawUser>, today: Date, draws: seq<SalaryDraw>) returns (users: seq<User>)
    requires |draws| == |data|
    ensures |users| == |data|
    ensures forall i :: 0 <= i < |data| ==> users[i] == FormatUser(data[i], today, draws[i])
  {
    users := [];
    var i := 0;
    while i < |data|
      invariant 0 <= i <= |data|
      invariant |users| == i
      invariant forall j :: 0 <= j < i ==> users[j] == FormatUser(data[j], today, draws[j])
    {
      users := users + [FormatUser(data[i], today, draws[i])];
      i := i + 1;
    }
  }
}
