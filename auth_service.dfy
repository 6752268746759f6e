/** Login identifiers: `LOI`, the company code, two letters of each name,
    the join year and a serial padded to four digits; and the next free
    serial of a (company, join year) group. */
module AuthService {
  import opened Common
  import opened Records
  import opened Text

  const LOGIN_PREFIX: string := "LOI"
  /** The width `padStart` pads the serial to. */
  const SERIAL_WIDTH: nat := 4

  /** `firstName.substring(0, 2).toUpperCase() + lastName.substring(0, 2).toUpperCase()` */
  function NameInitials(firstName: string, lastName: string): string {
    Upper(Take(firstName, 2)) + Upper(Take(lastName, 2))
  }

  /** `serialNumber.toString().padStart(4, '0')` */
  function PaddedSerial(serialNumber: int): string {
    PadStart(IntToString(serialNumber), SERIAL_WIDTH, '0')
  }

  /** `generateLoginId(companyCode, firstName, lastName, joinYear, serialNumber)` */
  function GenerateLoginId(companyCode: string, firstName: string, lastName: string, joinYear: int,
                           serialNumber: int): string {
    LOGIN_PREFIX + companyCode + NameInitials(firstName, lastName) + IntToString(joinYear) + PaddedSerial(serialNumber)
  }

  function Min(a: int, b: int): int {
    if a < b then a else b
  }

  /** The length of a login id: the prefix, the code, up to two characters of
      each name, the year, and the serial's digits but at least four. */
  lemma LoginIdLength(companyCode: string, firstName: string, lastName: string, joinYear: int, serialNumber: int)
    ensures |GenerateLoginId(companyCode, firstName, lastName, joinYear, serialNumber)|
            == 3 + |companyCode| + Min(2, |firstName|) + Min(2, |lastName|) + |IntToString(joinYear)|
               + MaxInt(SERIAL_WIDTH, |IntToString(serialNumber)|)
  {
  }

  /** The head of a login id: the prefix, then the company code, the
      upper-cased initials and the year. */
  function LoginIdHead(companyCode: string, firstName: string, lastName: string, joinYear: int): (h: string)
    ensures |h| == 3 + |companyCode| + |NameInitials(firstName, lastName)| + |IntToString(joinYear)|
    ensures h[..3] == LOGIN_PREFIX
    ensures h[3..3 + |companyCode|] == companyCode
  {
    var h := LOGIN_PREFIX + companyCode + NameInitials(firstName, lastName) + IntToString(joinYear);
    assert h[..3] == LOGIN_PREFIX;
    assert h[3..3 + |companyCode|] == companyCode;
    h
  }

  /** A login id is its head followed by a tail of at least four digits that
      reads back as the serial. */
  lemma LoginIdLayout(companyCode: string, firstName: string, lastName: string, joinYear: int, serialNumber: nat)
    ensures var id := GenerateLoginId(companyCode, firstName, lastName, joinYear, serialNumber);
            var head := LoginIdHead(companyCode, firstName, lastName, joinYear);
            && |id| - |head| >= SERIAL_WIDTH
            && id[..|head|] == head
            && AllDigits(id[|head|..])
            && DigitsValue(id[|head|..]) == serialNumber
  {
    var id := GenerateLoginId(companyCode, firstName, lastName, joinYear, serialNumber);
    var head := LoginIdHead(companyCode, firstName, lastName, joinYear);
    assert id == head + PaddedSerial(serialNumber);
    assert id[|head|..] == PaddedSerial(serialNumber);
    PaddedSerialValue(serialNumber, SERIAL_WIDTH);
  }

  /** With the other inputs fixed, two serials give the same login id only
      when they are equal. */
  lemma LoginIdSerialInjective(companyCode: string, firstName: string, lastName: string, joinYear: int,
                               a: nat, b: nat)
    requires GenerateLoginId(companyCode, firstName, lastName, joinYear, a)
             == GenerateLoginId(companyCode, firstName, lastName, joinYear, b)
    ensures a == b
  {
    LoginIdLayout(companyCode, firstName, lastName, joinYear, a);
    LoginIdLayout(companyCode, firstName, lastName, joinYear, b);
  }

  /** A login id for the company code "AC", John Doe, 2026 and serial 7. */
  lemma LoginIdExample()
    ensures GenerateLoginId("AC", "John", "Doe", 2026, 7) == "LOIACJODO20260007"
  {
    assert Upper("Jo") == "JO";
    assert Upper("Do") == "DO";
    assert NatToString(2026) == "2026";
    assert NatToString(7) == "7";
    assert Repeat('0', 3) == "000";
  }

  /** The serial numbers in use in one (company, join year) group. */
  function SerialsOf(users: map<int, User>, companyId: int, joinYear: int): (s: set<int>)
    ensures forall n :: n in s <==>
              exists u :: u in users && users[u].companyId == companyId && users[u].joinYear == joinYear
                          && users[u].serialNumber == n
  {
    set u | u in users && users[u].companyId == companyId && users[u].joinYear == joinYear :: users[u].serialNumber
  }

  /** The users of one (company, join year) group. */
  function GroupOf(users: map<int, User>, companyId: int, joinYear: int): (g: set<int>)
    ensures forall u :: u in g <==> u in users && users[u].companyId == companyId && users[u].joinYear == joinYear
  {
    set u | u in users && users[u].companyId == companyId && users[u].joinYear == joinYear
  }

  /** `r` is the group's next serial: one above the highest serial in use,
      or 1 for an empty group. */
  predicate IsNextSerial(users: map<int, User>, companyId: int, joinYear: int, r: int) {
    var serials := SerialsOf(users, companyId, joinYear);
    && (serials == {} ==> r == 1)
    && (serials != {} ==> r - 1 in serials)
    && (forall n :: n in serials ==> n < r)
  }

  /** The next serial is determined by the group, and no user of the group
      has it. */
  lemma IsNextSerialUnique(users: map<int, User>, companyId: int, joinYear: int, a: int, b: int)
    requires IsNextSerial(users, companyId, joinYear, a) && IsNextSerial(users, companyId, joinYear, b)
    ensures a == b
    ensures a !in SerialsOf(users, companyId, joinYear)
  {
  }

  /** `getNextSerialNumber(companyId, joinYear)`: the serial of the group's
      user with the highest serial, plus one; 1 for an empty group. The query
      with `orderBy: serialNumber desc` is a scan for that maximum. */
  method NextSerialNumber(db: Db, companyId: int, joinYear: int) returns (r: int)
    ensures IsNextSerial(db.users, companyId, joinYear, r)
  {
    var group := GroupOf(db.users, companyId, joinYear);
    var remaining := group;
    var last: Option<int> := None;
    while remaining != {}
      invariant remaining <= group
      invariant last.None? <==> remaining == group
      invariant last.Some? ==> last.value in group
      invariant last.Some? ==> forall u :: u in group - remaining ==> db.users[u].serialNumber <= db.users[last.value].serialNumber
      decreases remaining
    {
      var u := Pick(remaining);
      if last.None? || db.users[u].serialNumber > db.users[last.value].serialNumber {
        last := Some(u);
      }
      remaining := remaining - {u};
    }
    ghost var serials := SerialsOf(db.users, companyId, joinYear);
    if last.Some? {
      var w := last.value;
      r := db.users[w].serialNumber + 1;
      assert w in db.users && db.users[w].companyId == companyId && db.users[w].joinYear == joinYear;
      assert r - 1 in serials;
    } else {
      r := 1;
    }
  }
}
