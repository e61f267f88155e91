/** The list of queues and its database files: names become file names, and file
    names become names again when the list is loaded. */
module QueueList {
  import opened Strings
  import opened Tasks

  datatype Kind = Directory | Regular | Other

  datatype Entry = Entry(path: string, kind: Kind)

  /** The name of the queue stored in a file of this name, if it counts as a database. */
  function ParseFile(file: string): Option<string> {
    var index := FindLast(file, '.');
    if file[index + 1..] != "db" then None
    else if index == -1 then Some(file)   // substr(0, npos)
    else Some(file[..index])
  }

  /** The same for the file at a path. */
  function ParsePath(path: string): Option<string> {
    ParseFile(path[FindLast(path, '/') + 1..])
  }

  /** The file that init of the queue opens. */
  function PathOf(target: string, name: string): string {
    target + "/" + name + ".db"
  }

  /** The name of the queue that a directory entry offers, if it does. */
  function Offered(e: Entry): Option<string> {
    if e.kind.Regular? then ParsePath(e.path) else None
  }

  function Offers(entries: seq<Entry>): seq<Option<string>> {
    seq(|entries|, i requires 0 <= i < |entries| => Offered(entries[i]))
  }

  function NameOf(offer: Option<string>): set<string> {
    match offer
    case None => {}
    case Some(name) => {name}
  }

  function Names(offers: seq<Option<string>>): set<string> {
    set o | o in offers && o.Some? :: o.value
  }

  /** The names of the queues that a directory listing offers. */
  function Found(entries: seq<Entry>): set<string> {
    Names(Offers(entries))
  }

  lemma LastOf(s: string, c: char, p: int)
    requires 0 <= p < |s| && s[p] == c && c !in s[p + 1..]
    ensures FindLast(s, c) == p
  {
    assert forall k :: p < k < |s| ==> s[k] == s[p + 1..][k - p - 1];
    assert forall k :: p < k < |s| ==> s[k] in s[p + 1..];
  }

  /** The last component of a path is what follows its last slash. */
  lemma LastComponent(target: string, file: string)
    requires '/' !in file
    ensures var path := target + "/" + file; path[FindLast(path, '/') + 1..] == file
  {
    var path := target + "/" + file;
    assert path[|target| + 1..] == file;
    LastOf(path, '/', |target|);
  }

  lemma DatabaseFile(name: string)
    ensures ParseFile(name + ".db") == Some(name)
  {
    var file := name + ".db";
    assert file[|name| + 1..] == "db";
    LastOf(file, '.', |name|);
    assert file[..|name|] == name;
  }

  lemma OtherFile(file: string)
    ensures ParseFile(file).Some? && file != "db" ==> file == ParseFile(file).value + ".db"
    ensures file == "db" ==> ParseFile(file) == Some("db")
  {
    var index := FindLast(file, '.');
    if index == -1 {
      assert file[0..] == file;
    } else if file[index + 1..] == "db" {
      assert file == file[..index] + "." + "db";
      assert file[..index] + "." + "db" == file[..index] + ".db";
    }
  }

  /** Which files of the target directory are taken for which queue: name.db for
      name, dots in the name or not, and also a file called just db. */
  lemma ParsedIff(target: string, file: string, name: string)
    requires '/' !in file
    ensures ParsePath(target + "/" + file) == Some(name) <==>
      (file == name + ".db" || (file == "db" && name == "db"))
  {
    LastComponent(target, file);
    if file == name + ".db" {
      DatabaseFile(name);
    } else {
      OtherFile(file);
    }
  }

  /** The file name round trip. */
  lemma NameRoundTrip(target: string, name: string)
    requires '/' !in name
    ensures PathOf(target, name) == target + "/" + (name + ".db")
    ensures ParsePath(PathOf(target, name)) == Some(name)
  {
    ParsedIff(target, name + ".db", name);
  }

  lemma FoundMembers(entries: seq<Entry>, name: string)
    ensures name in Found(entries) <==>
      exists e :: e in entries && e.kind.Regular? && ParsePath(e.path) == Some(name)
  {
    var offers := Offers(entries);
    if name in Found(entries) {
      var i :| 0 <= i < |offers| && offers[i] == Some(name);
      assert entries[i] in entries;
    }
    forall e | e in entries && Offered(e) == Some(name) ensures Some(name) in offers {
      var i :| 0 <= i < |entries| && entries[i] == e;
      assert offers[i] == Some(name);
    }
  }

  /** The database files among the entries are those of the names, in any order;
      there may be directories and other files besides. */
  ghost predicate Lists(entries: seq<Entry>, target: string, names: set<string>) {
    && (forall e :: e in entries && Offered(e).Some? ==> exists n :: n in names && e.path == PathOf(target, n))
    && (forall n :: n in names ==> Entry(PathOf(target, n), Regular) in entries)
  }

  /** Listing a directory with the database files of some names offers exactly these. */
  lemma ReloadFinds(entries: seq<Entry>, target: string, names: set<string>)
    requires Lists(entries, target, names)
    requires forall n :: n in names ==> '/' !in n
    ensures Found(entries) == names
  {
    forall name ensures name in Found(entries) <==> name in names {
      FoundMembers(entries, name);
      if name in names {
        NameRoundTrip(target, name);
        assert Entry(PathOf(target, name), Regular) in entries;
      }
      if name in Found(entries) {
        var e :| e in entries && e.kind.Regular? && ParsePath(e.path) == Some(name);
        var n :| n in names && e.path == PathOf(target, n);
        NameRoundTrip(target, n);
      }
    }
  }

  /** A queue object: its number, and which file it has opened. */
  datatype Object = Object(number: nat, file: nat)

  /** How an attempt to open a queue ends: refused for want of memory or by SQLite
      or the schema, it may leave a file behind. */
  datatype Attempt = Opens | Refused(leavesFile: bool)

  /** How many attempts it takes to load what is offered. */
  function Tries(offers: seq<Option<string>>): nat {
    if |offers| == 0 then 0
    else Tries(offers[..|offers| - 1]) + (if offers[|offers| - 1].Some? then 1 else 0)
  }

  /** Attempt number k loads what is offered, if that is anything. */
  predicate CanLoad(offer: Option<string>, attempts: nat -> Attempt, k: nat) {
    offer.Some? ==> offer.value != "" && attempts(k).Opens?
  }

  /** What is offered can be loaded in order, the first attempt having the given number. */
  predicate Loads(offers: seq<Option<string>>, attempts: nat -> Attempt, first: nat) {
    if |offers| == 0 then true
    else
      var n := |offers| - 1;
      Loads(offers[..n], attempts, first) && CanLoad(offers[n], attempts, first + Tries(offers[..n]))
  }

  lemma {:induction false} LoadsIff(offers: seq<Option<string>>, attempts: nat -> Attempt, first: nat)
    ensures Loads(offers, attempts, first) <==>
      "" !in Names(offers) && forall k: nat :: first <= k < first + Tries(offers) ==> attempts(k).Opens?
  {
    if |offers| > 0 {
      NamesNext(offers, |offers| - 1);
      assert offers[..|offers|] == offers;
      LoadsIff(offers[..|offers| - 1], attempts, first);
    }
  }

  lemma NamesNext(offers: seq<Option<string>>, i: nat)
    requires i < |offers|
    ensures Names(offers[..i + 1]) == Names(offers[..i]) + NameOf(offers[i])
    ensures Names(offers[..i + 1]) <= Names(offers)
  {
    assert offers[..i + 1] == offers[..i] + [offers[i]];
  }

  /** If all can be loaded, so can the first of them. */
  lemma {:induction false} LoadsFirst(offers: seq<Option<string>>, attempts: nat -> Attempt, first: nat, i: nat)
    requires i <= |offers|
    ensures Loads(offers, attempts, first) ==> Loads(offers[..i], attempts, first)
    decreases |offers| - i
  {
    if i < |offers| {
      LoadsFirst(offers, attempts, first, i + 1);
      assert offers[..i + 1][..i] == offers[..i];
    } else {
      assert offers[..i] == offers;
    }
  }

  lemma LoadsNext(offers: seq<Option<string>>, attempts: nat -> Attempt, first: nat, i: nat)
    requires i < |offers|
    ensures Tries(offers[..i + 1]) == Tries(offers[..i]) + (if offers[i].Some? then 1 else 0)
    ensures Loads(offers[..i + 1], attempts, first) <==>
      Loads(offers[..i], attempts, first) && CanLoad(offers[i], attempts, first + Tries(offers[..i]))
    ensures Loads(offers, attempts, first) ==> Loads(offers[..i + 1], attempts, first)
  {
    assert offers[..i + 1][..i] == offers[..i];
    LoadsFirst(offers, attempts, first, i + 1);
  }

  /** The list has at most one object on each file. */
  ghost predicate OneEach(queues: map<string, Object>) {
    forall m, n :: m in queues && n in queues && queues[m].file == queues[n].file ==> m == n
  }

  /** No two names lead to the same object, and all numbers are below the bound. */
  ghost predicate Distinct(queues: map<string, Object>, bound: nat) {
    && (forall n :: n in queues ==> queues[n].number < bound)
    && (forall m, n :: m in queues && n in queues && queues[m].number == queues[n].number ==> m == n)
  }

  /** No other name leads to an object on this file. */
  ghost predicate Unshared(queues: map<string, Object>, name: string, file: nat) {
    forall n :: n in queues && queues[n].file == file ==> n == name
  }

  /** The file of a queue of this name is in the target directory. */
  predicate Plain(name: string) {
    '/' !in name && name != ""
  }

  class SQLiteQueueList {
    const target: string
    /** How the attempts to open a queue end, one after the other. */
    const attempts: nat -> Attempt
    /** Which file the path of a name leads to; x and ./x, say, lead to the same. */
    const fileOf: string -> nat
    /** The number of the next attempt. */
    var tries: nat
    /** m_queueList. */
    var queues: map<string, Object>
    /** The names, without a slash, of the database files in the target directory,
        from which nothing is ever deleted. */
    ghost var files: set<string>

    /** No two names lead to the same object. */
    ghost predicate Valid()
      reads this
    {
      && (forall n :: n in files ==> Plain(n))
      && Distinct(queues, tries)
    }

    constructor (target: string, attempts: nat -> Attempt, fileOf: string -> nat)
      ensures Valid() && this.target == target && this.attempts == attempts && this.fileOf == fileOf
      ensures tries == 0 && queues == map[] && files == {}
    {
      this.target, this.attempts, this.fileOf := target, attempts, fileOf;
      tries, queues, files := 0, map[], {};
    }

    /** init of a queue: a queue without a name is refused before anything is opened. */
    method OpenQueue(name: string) returns (ok: bool)
      requires Valid()
      modifies `tries, `files
      ensures Valid() && ok == (name != "" && attempts(old(tries)).Opens?)
      ensures tries == if name == "" then old(tries) else old(tries) + 1
      ensures files == if Plain(name) && (ok || attempts(old(tries)).leavesFile)
                       then old(files) + {name} else old(files)
    {
      if name == "" {
        return false;
      }
      var attempt := attempts(tries);
      tries := tries + 1;
      if Plain(name) && (attempt.Opens? || attempt.leavesFile) {
        files := files + {name};
      }
      ok := attempt.Opens?;
    }

    method CreateQueue(name: string) returns (code: Code)
      requires Valid()
      modifies this
      ensures Valid()
      ensures code == if name != "" && attempts(old(tries)).Opens? then OK else OS_ERROR
      ensures tries == if name == "" then old(tries) else old(tries) + 1
      ensures queues == if code == OK then old(queues)[name := Object(old(tries), fileOf(name))] else old(queues)
      ensures files == if Plain(name) && (code == OK || attempts(old(tries)).leavesFile)
                       then old(files) + {name} else old(files)
    {
      NewDistinct(queues, name, tries, fileOf(name));
      var ok := OpenQueue(name);
      if !ok {
        return OS_ERROR;
      }
      queues := queues[name := Object(tries - 1, fileOf(name))];
      code := OK;
    }

    method DeleteQueue(name: string) returns (code: Code)
      requires Valid()
      modifies `queues
      ensures Valid() && code == if name in old(queues) then OK else NOT_FOUND
      ensures queues == old(queues) - {name}
      ensures OneEach(old(queues)) ==> OneEach(queues)
    {
      if name !in queues {
        assert queues - {name} == queues;
        return NOT_FOUND;
      }
      queues := queues - {name};
      code := OK;
    }

    /** Renaming a queue to its own name erases it; the file keeps its old name. */
    method RenameQueue(oldName: string, newName: string) returns (code: Code)
      requires Valid()
      modifies `queues
      ensures Valid() && code == if oldName in old(queues) then OK else NOT_FOUND
      ensures queues == if code == OK then old(queues)[newName := old(queues)[oldName]] - {oldName} else old(queues)
      ensures code == OK && oldName == newName ==> newName !in queues
      ensures OneEach(old(queues)) ==> OneEach(queues)
    {
      var rest := queues.Keys;
      while rest != {}
        invariant rest <= queues.Keys && queues == old(queues)
        invariant oldName in queues ==> oldName in rest
        decreases rest
      {
        var it :| it in rest;
        if it == oldName {
          queues := queues[newName := queues[it]];
          queues := queues - {oldName};
          return OK;
        }
        rest := rest - {it};
      }
      code := NOT_FOUND;
    }

    /** The object found is one that no other name of the list leads to. */
    method GetQueue(name: string) returns (queue: Option<Object>)
      requires Valid()
      ensures queue.Some? <==> name in queues
      ensures queue.Some? ==> queues[name] == queue.value
      ensures queue.Some? ==> forall n :: n in queues && queues[n].number == queue.value.number <==> n == name
    {
      queue := if name in queues then Some(queues[name]) else None;
    }

    method ListQueue() returns (code: Code, out: seq<string>)
      ensures code == if queues == map[] then NOT_FOUND else OK
      ensures multiset(out) == multiset(queues.Keys)
    {
      out := [];
      var rest := queues.Keys;
      while rest != {}
        invariant rest <= queues.Keys && multiset(out) == multiset(queues.Keys - rest)
        decreases rest
      {
        var it :| it in rest;
        out := out + [it];
        assert queues.Keys - (rest - {it}) == (queues.Keys - rest) + {it};
        rest := rest - {it};
      }
      assert queues.Keys - {} == queues.Keys;
      assert |multiset(out)| == |multiset(queues.Keys)|;
      code := if |out| == 0 then NOT_FOUND else OK;
    }

    /** What init does with a directory entry that offers this, or nothing. */
    method LoadEntry(offer: Option<string>) returns (ok: bool)
      requires Valid()
      modifies this
      ensures Valid() && old(files) <= files <= old(files) + NameOf(offer)
      ensures ok <==> CanLoad(offer, attempts, old(tries))
      ensures ok ==> queues.Keys == old(queues).Keys + NameOf(offer)
      ensures ok ==> tries == old(tries) + if offer.Some? then 1 else 0
    {
      ok := true;
      if offer.Some? {
        var code := CreateQueue(offer.value);
        ok := code == OK;
      }
    }

    /** The loop of init over the directory entries, given what they offer. */
    method LoadAll(offers: seq<Option<string>>) returns (ok: bool)
      requires Valid() && queues == map[]
      modifies this
      ensures Valid() && old(files) <= files <= old(files) + Names(offers)
      ensures ok == Loads(offers, attempts, old(tries))
      ensures queues.Keys == if ok then Names(offers) else {}
    {
      var i := 0;
      while i < |offers|
        invariant 0 <= i <= |offers| && Valid() && old(files) <= files <= old(files) + Names(offers[..i])
        invariant queues.Keys == Names(offers[..i])
        invariant Loads(offers[..i], attempts, old(tries)) && tries == old(tries) + Tries(offers[..i])
      {
        NamesNext(offers, i);
        LoadsNext(offers, attempts, old(tries), i);
        ok := LoadEntry(offers[i]);
        if !ok {
          queues := map[];
          return;
        }
        i := i + 1;
      }
      assert offers[..|offers|] == offers;
      ok := true;
    }

    /** Load the list from the entries of the target directory, all or nothing. */
    method Init(dirIsGood: bool, entries: seq<Entry>) returns (code: Code)
      requires Valid()
      modifies this
      ensures Valid() && old(files) <= files <= old(files) + Found(entries)
      ensures code == if !dirIsGood then INVALID_ARGUMENT
                      else if Loads(Offers(entries), attempts, old(tries)) then OK
                      else OS_ERROR
      ensures code == OK ==> queues.Keys == Found(entries)
      ensures code == OS_ERROR ==> queues == map[]
      ensures code == INVALID_ARGUMENT ==> queues == old(queues)
    {
      if !dirIsGood {
        return INVALID_ARGUMENT;
      }
      queues := map[];
      var ok := LoadAll(Offers(entries));
      code := if ok then OK else OS_ERROR;
    }

    /** Whatever was deleted or renamed since: loading the directory again gives
        exactly the queues whose files were ever made, or fails with one of them. */
    method Reload(entries: seq<Entry>) returns (code: Code)
      requires Valid() && Lists(entries, target, files)
      modifies this
      ensures Valid() && files == old(files)
      ensures code ==
        if forall k: nat :: old(tries) <= k < old(tries) + Tries(Offers(entries)) ==> attempts(k).Opens? then OK
        else OS_ERROR
      ensures queues.Keys == if code == OK then files else {}
    {
      ReloadFinds(entries, target, files);
      LoadsIff(Offers(entries), attempts, tries);
      code := Init(true, entries);
    }
  }

  lemma NewDistinct(queues: map<string, Object>, name: string, bound: nat, file: nat)
    requires Distinct(queues, bound)
    ensures Distinct(queues, bound + 1) && Distinct(queues[name := Object(bound, file)], bound + 1)
  {
  }

  /** Creating a queue puts two objects on one file exactly if another name leads
      to an object on its file already. */
  lemma NewObject(queues: map<string, Object>, name: string, number: nat, file: nat)
    requires OneEach(queues)
    ensures OneEach(queues[name := Object(number, file)]) <==> Unshared(queues, name, file)
  {
    var more := queues[name := Object(number, file)];
    if !Unshared(queues, name, file) {
      var n :| n in queues && queues[n].file == file && n != name;
      assert more[n].file == more[name].file;
    }
  }

  /** Two objects on one file: create a queue, rename it, and create it again. */
  method ShareFile(list: SQLiteQueueList, x: string, y: string)
    requires list.Valid() && x != "" && x != y
    requires forall k: nat :: list.attempts(k).Opens?
    modifies list
    ensures x in list.queues && y in list.queues
    ensures list.queues[x].file == list.queues[y].file && list.queues[x].number != list.queues[y].number
  {
    var code := list.CreateQueue(x);
    code := list.RenameQueue(x, y);
    code := list.CreateQueue(x);
  }

  /** Or create two queues whose paths lead to the same file. */
  method ShareByPath(list: SQLiteQueueList, x: string, y: string)
    requires list.Valid() && x != "" && y != "" && x != y && list.fileOf(x) == list.fileOf(y)
    requires forall k: nat :: list.attempts(k).Opens?
    modifies list
    ensures x in list.queues && y in list.queues
    ensures list.queues[x].file == list.queues[y].file && list.queues[x].number != list.queues[y].number
  {
    var code := list.CreateQueue(x);
    code := list.CreateQueue(y);
  }
}
