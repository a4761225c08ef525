/** The console library manager: books and users kept in two maps keyed by their ids, a book's
    issued flag, and each user's list of borrowed book ids. The printed messages are modelled
    as the result each operation returns. */
module LibrarySystem {

  // ---------------------------------------------------------------------------
  // The state as values, and the invariant issue and return keep
  // ---------------------------------------------------------------------------

  /** Each book's issued flag and each user's borrowed list, keyed by id. */
  datatype LibState = LibState(issued: map<int, bool>, loans: map<int, seq<int>>)

  /** Position of the first `x` in `xs`, or `|xs|` when there is none. */
  function FirstIndex(xs: seq<int>, x: int): (i: nat)
    ensures i <= |xs|
    ensures i < |xs| ==> xs[i] == x
    ensures x !in xs[..i]
    ensures i == |xs| <==> x !in xs
  {
    if xs == [] then 0
    else if xs[0] == x then 0
    else
      var j := FirstIndex(xs[1..], x);
      assert xs[..j + 1] == [xs[0]] + xs[1..][..j];
      1 + j
  }

  /** `List.remove(Integer.valueOf(x))`: the first occurrence of `x` goes, nothing else moves. */
  function RemoveFirst(xs: seq<int>, x: int): (r: seq<int>)
    ensures x !in xs ==> r == xs
    ensures x in xs ==> var i := FirstIndex(xs, x); r == xs[..i] + xs[i + 1..]
    ensures multiset(r) == multiset(xs) - multiset{x}
  {
    var i := FirstIndex(xs, x);
    if i == |xs| then xs
    else
      assert xs == xs[..i] + [x] + xs[i + 1..];
      xs[..i] + xs[i + 1..]
  }

  /** Removing an id from a list without duplicates removes it entirely and keeps the rest. */
  lemma RemoveFromDistinct(xs: seq<int>, x: int)
    requires NoDuplicates(xs)
    ensures NoDuplicates(RemoveFirst(xs, x))
    ensures forall c :: c in RemoveFirst(xs, x) <==> c in xs && c != x
  {
    if x in xs {
      var i := FirstIndex(xs, x);
      var ys := RemoveFirst(xs, x);
      assert forall k :: 0 <= k < |ys| ==> ys[k] == xs[if k < i then k else k + 1];
      forall c ensures c in ys <==> c in xs && c != x {
        if c in xs && c != x {
          var k :| 0 <= k < |xs| && xs[k] == c;
          assert k != i;
          assert ys[if k < i then k else k - 1] == c;
        }
      }
    }
  }

  predicate NoDuplicates(xs: seq<int>) {
    forall i, j :: 0 <= i < j < |xs| ==> xs[i] != xs[j]
  }

  /** The invariant: every borrowed id names a book, no list holds an id twice, no two users
      hold the same book, and a book is issued exactly when some user holds it. */
  predicate Sound(s: LibState) {
    && (forall u, b :: u in s.loans && b in s.loans[u] ==> b in s.issued)
    && (forall u :: u in s.loans ==> NoDuplicates(s.loans[u]))
    && (forall u, v, b :: u in s.loans && v in s.loans && b in s.loans[u] && b in s.loans[v] ==> u == v)
    && (forall b :: b in s.issued ==> (s.issued[b] <==> exists u :: u in s.loans && b in s.loans[u]))
  }

  function AddBookState(s: LibState, id: int, issued: bool): (s': LibState)
    ensures id in s.issued ==> s' == s
    ensures id !in s.issued ==> s'.issued == s.issued[id := issued] && s'.loans == s.loans
  {
    if id in s.issued then s else s.(issued := s.issued[id := issued])
  }

  function AddUserState(s: LibState, id: int, borrowed: seq<int>): (s': LibState)
    ensures id in s.loans ==> s' == s
    ensures id !in s.loans ==> s'.loans == s.loans[id := borrowed] && s'.issued == s.issued
  {
    if id in s.loans then s else s.(loans := s.loans[id := borrowed])
  }

  function IssueState(s: LibState, b: int, u: int): (s': LibState)
    ensures b !in s.issued || u !in s.loans || s.issued[b] ==> s' == s
    ensures b in s.issued && u in s.loans && !s.issued[b] ==>
              s'.issued == s.issued[b := true] && s'.loans == s.loans[u := s.loans[u] + [b]]
  {
    if b !in s.issued || u !in s.loans || s.issued[b] then s
    else LibState(s.issued[b := true], s.loans[u := s.loans[u] + [b]])
  }

  function ReturnState(s: LibState, b: int, u: int): (s': LibState)
    ensures b !in s.issued || u !in s.loans || b !in s.loans[u] ==> s' == s
    ensures b in s.issued && u in s.loans && b in s.loans[u] ==>
              s'.issued == s.issued[b := false] && s'.loans == s.loans[u := RemoveFirst(s.loans[u], b)]
  {
    if b !in s.issued || u !in s.loans || b !in s.loans[u] then s
    else LibState(s.issued[b := false], s.loans[u := RemoveFirst(s.loans[u], b)])
  }

  lemma EmptyIsSound()
    ensures Sound(LibState(map[], map[]))
  {
  }

  /** Adding a fresh, unissued book or a fresh user with no loans keeps the invariant. */
  lemma AddKeepsSound(s: LibState, id: int)
    requires Sound(s)
    ensures Sound(AddBookState(s, id, false))
    ensures Sound(AddUserState(s, id, []))
  {
    var s1 := AddBookState(s, id, false);
    forall b | b in s1.issued
      ensures s1.issued[b] <==> exists u :: u in s1.loans && b in s1.loans[u]
    {
      if b == id && id !in s.issued {
        assert forall u :: u in s.loans ==> b !in s.loans[u];
      }
    }
    var s2 := AddUserState(s, id, []);
    forall b | b in s2.issued
      ensures s2.issued[b] <==> exists u :: u in s2.loans && b in s2.loans[u]
    {
      if s.issued[b] {
        var v :| v in s.loans && b in s.loans[v];
        assert v in s2.loans && b in s2.loans[v];
      }
    }
  }

  /** An issue keeps the invariant: the book gains exactly one holder. */
  lemma IssueKeepsSound(s: LibState, b: int, u: int)
    requires Sound(s)
    ensures Sound(IssueState(s, b, u))
  {
    if b in s.issued && u in s.loans && !s.issued[b] {
      var s' := IssueState(s, b, u);
      assert forall v :: v in s.loans ==> b !in s.loans[v];
      forall v | v in s'.loans ensures NoDuplicates(s'.loans[v]) {
        if v == u {
          var xs := s'.loans[u];
          forall i, j | 0 <= i < j < |xs| ensures xs[i] != xs[j] {
            if j == |xs| - 1 {
              assert xs[i] in s.loans[u];
            }
          }
        }
      }
      forall c | c in s'.issued
        ensures s'.issued[c] <==> exists v :: v in s'.loans && c in s'.loans[v]
      {
        if c == b {
          assert b in s'.loans[u];
        } else {
          if s.issued[c] {
            var v :| v in s.loans && c in s.loans[v];
            assert c in s'.loans[v];
          }
          forall v | v in s'.loans && c in s'.loans[v] ensures c in s.loans[v] { }
        }
      }
    }
  }

  /** A return keeps the invariant: the only holder gives the book up. */
  lemma ReturnKeepsSound(s: LibState, b: int, u: int)
    requires Sound(s)
    ensures Sound(ReturnState(s, b, u))
  {
    if b in s.issued && u in s.loans && b in s.loans[u] {
      var s' := ReturnState(s, b, u);
      RemoveFromDistinct(s.loans[u], b);
      assert forall v, c :: v in s'.loans && c in s'.loans[v] ==> v in s.loans && c in s.loans[v];
      forall c | c in s'.issued
        ensures s'.issued[c] <==> exists v :: v in s'.loans && c in s'.loans[v]
      {
        if c != b && s.issued[c] {
          var v :| v in s.loans && c in s.loans[v];
          assert c in s'.loans[v];
        }
      }
    }
  }

  /** One menu action of the console loop; books and users come from their constructors. */
  datatype Op = AddBookOp(bookId: int) | AddUserOp(userId: int) | IssueOp(b: int, u: int) | ReturnOp(b: int, u: int)

  function Apply(s: LibState, op: Op): LibState {
    match op
    case AddBookOp(id) => AddBookState(s, id, false)
    case AddUserOp(id) => AddUserState(s, id, [])
    case IssueOp(b, u) => IssueState(s, b, u)
    case ReturnOp(b, u) => ReturnState(s, b, u)
  }

  function Run(s: LibState, ops: seq<Op>): LibState
    decreases |ops|
  {
    if ops == [] then s else Run(Apply(s, ops[0]), ops[1..])
  }

  /** Whatever the user types, the library stays sound from the empty one on: each issued book
      sits in exactly one user's list, once, and each available book in none. */
  lemma {:induction false} RunKeepsSound(s: LibState, ops: seq<Op>)
    requires Sound(s)
    ensures Sound(Run(s, ops))
    decreases |ops|
  {
    if ops != [] {
      match ops[0] {
        case AddBookOp(id) => AddKeepsSound(s, id);
        case AddUserOp(id) => AddKeepsSound(s, id);
        case IssueOp(b, u) => IssueKeepsSound(s, b, u);
        case ReturnOp(b, u) => ReturnKeepsSound(s, b, u);
      }
      RunKeepsSound(Apply(s, ops[0]), ops[1..]);
    }
  }

  // ---------------------------------------------------------------------------
  // The objects
  // ---------------------------------------------------------------------------

  class Book {
    const id: int
    const title: string
    const author: string
    var issued: bool

    constructor (id: int, title: string, author: string)
      ensures this.id == id && this.title == title && this.author == author
      ensures !issued
    {
      this.id := id;
      this.title := title;
      this.author := author;
      issued := false;
    }

    method Issue()
      modifies this
      ensures issued
    {
      issued := true;
    }

    method Returned()
      modifies this
      ensures !issued
    {
      issued := false;
    }
  }

  class User {
    const userId: int
    const name: string
    var borrowed: seq<int>

    constructor (userId: int, name: string)
      ensures this.userId == userId && this.name == name
      ensures borrowed == []
    {
      this.userId := userId;
      this.name := name;
      borrowed := [];
    }

    method BorrowBook(bookId: int)
      modifies this
      ensures borrowed == old(borrowed) + [bookId]
    {
      borrowed := borrowed + [bookId];
    }

    method ReturnBook(bookId: int)
      modifies this
      ensures borrowed == RemoveFirst(old(borrowed), bookId)
    {
      borrowed := RemoveFirst(borrowed, bookId);
    }

    method HasBorrowedBook(bookId: int) returns (b: bool)
      ensures b <==> bookId in borrowed
    {
      b := bookId in borrowed;
    }
  }

  datatype AddResult = Added | AlreadyExists
  datatype IssueResult = Issued | BookNotFound | UserNotFound | AlreadyIssued
  datatype ReturnResult =
    | ReturnedOk                  // "Book returned successfully."
    | ReturnedWithWarning         // the same, after "Book was not marked as issued"
    | InvalidBookOrUser
    | NotBorrowed

  class Library {
    var books: map<int, Book>
    var users: map<int, User>

    /** Each object is stored under its own id. */
    ghost predicate Valid()
      reads this
    {
      (forall k :: k in books ==> books[k].id == k) && (forall k :: k in users ==> users[k].userId == k)
    }

    ghost function State(): LibState
      reads this, books.Values, users.Values
    {
      LibState(map k | k in books :: books[k].issued, map k | k in users :: users[k].borrowed)
    }

    constructor ()
      ensures Valid() && State() == LibState(map[], map[])
    {
      books := map[];
      users := map[];
    }

    method AddBook(book: Book) returns (r: AddResult)
      requires Valid()
      modifies this
      ensures Valid()
      ensures r == AlreadyExists <==> book.id in old(books)
      ensures books == (if book.id in old(books) then old(books) else old(books)[book.id := book])
      ensures users == old(users)
      ensures State() == AddBookState(old(State()), book.id, book.issued)
    {
      if book.id in books {
        return AlreadyExists;
      }
      books := books[book.id := book];
      return Added;
    }

    method AddUser(user: User) returns (r: AddResult)
      requires Valid()
      modifies this
      ensures Valid()
      ensures r == AlreadyExists <==> user.userId in old(users)
      ensures users == (if user.userId in old(users) then old(users) else old(users)[user.userId := user])
      ensures books == old(books)
      ensures State() == AddUserState(old(State()), user.userId, user.borrowed)
    {
      if user.userId in users {
        return AlreadyExists;
      }
      users := users[user.userId := user];
      return Added;
    }

    method IssueBook(bookId: int, userId: int) returns (r: IssueResult)
      requires Valid()
      modifies books.Values, users.Values
      ensures Valid()
      ensures r == BookNotFound <==> bookId !in books
      ensures r == UserNotFound <==> bookId in books && userId !in users
      ensures r == AlreadyIssued <==> bookId in books && userId in users && old(books[bookId].issued)
      ensures State() == IssueState(old(State()), bookId, userId)
    {
      if bookId !in books {
        return BookNotFound;
      }
      if userId !in users {
        return UserNotFound;
      }
      var book := books[bookId];
      var user := users[userId];
      if book.issued {
        return AlreadyIssued;
      }
      book.Issue();
      user.BorrowBook(bookId);
      assert forall k :: k in books && k != bookId ==> books[k] != book;
      assert forall k :: k in users && k != userId ==> users[k] != user;
      return Issued;
    }

    method ReturnBook(bookId: int, userId: int) returns (r: ReturnResult)
      requires Valid()
      modifies books.Values, users.Values
      ensures Valid()
      ensures r == InvalidBookOrUser <==> bookId !in books || userId !in users
      ensures r == NotBorrowed <==> bookId in books && userId in users && bookId !in old(users[userId].borrowed)
      ensures r == ReturnedWithWarning <==>
                bookId in books && userId in users && bookId in old(users[userId].borrowed) && !old(books[bookId].issued)
      ensures State() == ReturnState(old(State()), bookId, userId)
    {
      if bookId !in books || userId !in users {
        return InvalidBookOrUser;
      }
      var book := books[bookId];
      var user := users[userId];
      var has := user.HasBorrowedBook(bookId);
      if !has {
        return NotBorrowed;
      }
      var warned := !book.issued;
      book.Returned();
      user.ReturnBook(bookId);
      assert forall k :: k in books && k != bookId ==> books[k] != book;
      assert forall k :: k in users && k != userId ==> users[k] != user;
      return if warned then ReturnedWithWarning else ReturnedOk;
    }
  }
}
