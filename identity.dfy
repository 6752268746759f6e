/** The identity steps that `signUp` and `createEmployee` both perform (each
    controller writes them out in full): the two-letter company code, the
    first/last-name split, finding a company by name or creating it, and
    inserting the new user row. */
module Identity {
  import opened Common
  import opened Records
  import opened Text
  import opened AuthService

  /** The message of the unique-constraint violation `prisma.user.create`
      raises for an email already in use. */
  const EMAIL_TAKEN: string := "Unique constraint failed on the fields: (`email`)"

  /** `words.map(word => word.substring(0, 2).toUpperCase())` */
  function WordInitials(words: seq<string>): (r: seq<string>)
    ensures |r| == |words|
    ensures forall i :: 0 <= i < |words| ==> r[i] == Upper(Take(words[i], 2))
  {
    if words == [] then [] else [Upper(Take(words[0], 2))] + WordInitials(words[1..])
  }

  /** The company code: two upper-cased letters of every space-separated word,
      joined, then cut to two characters. */
  function CompanyCode(companyName: string): (code: string)
    ensures |code| <= 2
  {
    Take(Concat(WordInitials(Split(companyName, ' '))), 2)
  }

  /** A first word of two or more characters makes the code on its own. */
  lemma CompanyCodeFirstWord(companyName: string)
    requires |Split(companyName, ' ')[0]| >= 2
    ensures CompanyCode(companyName) == Upper(Split(companyName, ' ')[0][..2])
  {
    var inits := WordInitials(Split(companyName, ' '));
    assert Concat(inits) == inits[0] + Concat(inits[1..]);
  }

  /** A one-letter first word takes the second letter of the code from the
      next word. */
  lemma CompanyCodeShortFirstWord(companyName: string)
    requires var words := Split(companyName, ' ');
             |words[0]| == 1 && |words| >= 2 && |words[1]| >= 1
    ensures var words := Split(companyName, ' ');
            CompanyCode(companyName) == [UpperChar(words[0][0]), UpperChar(words[1][0])]
  {
    var words := Split(companyName, ' ');
    var inits := WordInitials(words);
    assert Concat(inits) == inits[0] + (inits[1] + Concat(inits[2..])) by {
      assert Concat(inits[1..]) == inits[1..][0] + Concat(inits[1..][1..]);
      assert inits[1..][1..] == inits[2..];
    }
    assert inits[0] == [UpperChar(words[0][0])];
    assert inits[1][0] == UpperChar(words[1][0]);
  }

  /** "Acme Corp" gets the code "AC". */
  lemma AcmeCorpCode()
    ensures CompanyCode("Acme Corp") == "AC"
  {
    assert "Acme Corp" == "Acme" + [' '] + "Corp";
    SplitAtFirst("Acme", ' ', "Corp");
    assert Split("Acme Corp", ' ')[0] == "Acme";
    CompanyCodeFirstWord("Acme Corp");
    assert "Acme"[..2] == "Ac";
    assert Upper("Ac") == "AC";
  }

  /** The first and last name taken from a full name. */
  datatype FullName = FullName(first: string, last: string)

  /** The words after the first, joined by a space. */
  function RestOfName(name: string): string {
    var parts := Split(Trim(name), ' ');
    Join(parts[1..], " ")
  }

  /** `name.trim().split(' ')`: the first word, and the remaining words joined
      by a space or, when there are none, the first word again. */
  function SplitName(name: string): (n: FullName)
    ensures ' ' !in n.first
    ensures n.last == if RestOfName(name) == "" then n.first else RestOfName(name)
  {
    var parts := Split(Trim(name), ' ');
    var rest := Join(parts[1..], " ");
    FullName(parts[0], if rest == "" then parts[0] else rest)
  }

  /** The split loses nothing: the trimmed name is the first name, a space
      and the rest; a name without a space is its own first and last name. */
  lemma SplitNameRecovers(name: string)
    ensures var t, n := Trim(name), SplitName(name);
            && (' ' !in t ==> n.first == t && n.last == t)
            && (' ' in t ==> t == n.first + " " + RestOfName(name))
  {
    var t := Trim(name);
    var parts := Split(t, ' ');
    JoinSplit(t, ' ');
    SplitHead(t, ' ');
    if ' ' in t {
      assert Join(parts, " ") == parts[0] + " " + Join(parts[1..], " ");
    } else {
      assert parts[1..] == [];
    }
  }

  lemma TrimJohnDoe()
    ensures Trim("John Doe") == "John Doe"
  {
    assert TrimStart("John Doe") == "John Doe";
    assert TrimEnd("John Doe") == "John Doe";
  }

  lemma SplitJohnDoeWords()
    ensures Split("John Doe", ' ') == ["John", "Doe"]
  {
    assert "John Doe" == "John" + [' '] + "Doe";
    SplitAtFirst("John", ' ', "Doe");
    SplitHead("Doe", ' ');
  }

  /** "John Doe" splits into John and Doe. */
  lemma SplitJohnDoe()
    ensures SplitName("John Doe") == FullName("John", "Doe")
  {
    TrimJohnDoe();
    SplitJohnDoeWords();
    var parts: seq<string> := ["John", "Doe"];
    assert parts[1..] == ["Doe"];
    assert Join(parts[1..], " ") == "Doe";
  }

  /** A one-word name is both the first and the last name. */
  lemma SplitOneWord()
    ensures SplitName("Madonna") == FullName("Madonna", "Madonna")
  {
    var s := "Madonna";
    assert Trim(s) == s by {
      assert TrimStart(s) == s;
      assert TrimEnd(s) == s;
    }
    assert ' ' !in s;
    SplitHead(s, ' ');
    var parts := Split(Trim(s), ' ');
    assert parts == [s];
    assert Join(parts[1..], " ") == "";
  }

  predicate HasCompanyNamed(companies: map<int, Company>, name: string) {
    exists c :: c in companies && companies[c].name == name
  }

  /** `prisma.company.findFirst({ where: { name } })`, and when there is none,
      `prisma.company.create` with the derived code. Company names are unique,
      so the lookup finds the one company of that name. */
  method FindOrCreateCompany(db: Db, companyName: string) returns (companyId: int)
    requires db.Valid()
    modifies db`companies, db`nextId
    ensures db.Valid()
    ensures companyId in db.companies && db.companies[companyId].name == companyName
    ensures HasCompanyNamed(old(db.companies), companyName) ==>
              db.companies == old(db.companies) && db.nextId == old(db.nextId)
    ensures forall c :: c in db.companies && db.companies[c].name == companyName ==> c == companyId
    ensures !HasCompanyNamed(old(db.companies), companyName) ==>
              && companyId == old(db.nextId) && companyId !in old(db.companies)
              && db.companies == old(db.companies)[companyId := Company(companyName, CompanyCode(companyName))]
              && db.nextId == old(db.nextId) + 1
  {
    var named := set c | c in db.companies && db.companies[c].name == companyName;
    if named != {} {
      companyId := Pick(named);
    } else {
      assert !HasCompanyNamed(db.companies, companyName) by {
        forall c | c in db.companies
          ensures db.companies[c].name != companyName
        {
          assert c !in named;
        }
      }
      companyId := db.nextId;
      db.companies := db.companies[companyId := Company(companyName, CompanyCode(companyName))];
      db.nextId := db.nextId + 1;
    }
  }

  predicate EmailTaken(users: map<int, User>, email: string) {
    exists u :: u in users && users[u].email == email
  }

  /** `prisma.user.create`: the row goes in under the next id, unless its
      email is already in use, which the unique constraint refuses. */
  method InsertUser(db: Db, row: User) returns (r: Result<int>)
    requires db.Valid() && row.companyId in db.companies
    requires IsNextSerial(db.users, row.companyId, row.joinYear, row.serialNumber)
    modifies db`users, db`nextId
    ensures db.Valid()
    ensures EmailTaken(old(db.users), row.email) ==>
              r == Err(Thrown(EMAIL_TAKEN)) && db.users == old(db.users) && db.nextId == old(db.nextId)
    ensures !EmailTaken(old(db.users), row.email) ==>
              && r == Ok(old(db.nextId)) && old(db.nextId) !in old(db.users)
              && db.users == old(db.users)[old(db.nextId) := row] && db.nextId == old(db.nextId) + 1
  {
    if exists u :: u in db.users && db.users[u].email == row.email {
      return Err(Thrown(EMAIL_TAKEN));
    }
    var id := db.nextId;
    assert KeysBelow(db.users.Keys, db.nextId);
    forall v | v in db.users && db.users[v].companyId == row.companyId && db.users[v].joinYear == row.joinYear
      ensures db.users[v].serialNumber < row.serialNumber
    {
      assert db.users[v].serialNumber in SerialsOf(db.users, row.companyId, row.joinYear);
    }
    db.users := db.users[id := row];
    db.nextId := id + 1;
    r := Ok(id);
  }

  /** The user row both controllers create: the login id built from the
      company's code, the split name, the join year and the group's next
      serial, with the first-login flag set. */
  ghost predicate IsNewUser(row: User, companies: map<int, Company>, oldUsers: map<int, User>, companyId: int,
                            name: string, email: string, hashedPassword: string, role: Role, joinYear: int,
                            fields: map<string, Value>) {
    && companyId in companies
    && IsNextSerial(oldUsers, companyId, joinYear, row.serialNumber)
    && row == User(GenerateLoginId(companies[companyId].code, SplitName(name).first, SplitName(name).last,
                                   joinYear, row.serialNumber),
                   email, hashedPassword, role, companyId, joinYear, row.serialNumber, true, fields)
  }

  /** The serial lookup, the login-id template and the insert. */
  method AddUser(db: Db, companyId: int, name: string, email: string, hashedPassword: string, role: Role,
                 joinYear: int, fields: map<string, Value>) returns (r: Result<int>)
    requires db.Valid() && companyId in db.companies
    modifies db`users, db`nextId
    ensures db.Valid()
    ensures EmailTaken(old(db.users), email) ==>
              r == Err(Thrown(EMAIL_TAKEN)) && db.users == old(db.users) && db.nextId == old(db.nextId)
    ensures !EmailTaken(old(db.users), email) ==>
              var id := old(db.nextId);
              && r == Ok(id) && id !in old(db.users) && id in db.users && db.nextId == id + 1
              && db.users == old(db.users)[id := db.users[id]]
              && IsNewUser(db.users[id], db.companies, old(db.users), companyId, name, email, hashedPassword, role,
                           joinYear, fields)
  {
    var names := SplitName(name);
    var serial := NextSerialNumber(db, companyId, joinYear);
    var loginId := GenerateLoginId(db.companies[companyId].code, names.first, names.last, joinYear, serial);
    var row := User(loginId, email, hashedPassword, role, companyId, joinYear, serial, true, fields);
    r := InsertUser(db, row);
  }
}
