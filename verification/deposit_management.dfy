/**
 * The administrator's deposit management screen: the balance of a
 * member's transactions, editing and removing product entries, and the
 * add-product and add-transaction forms with their input checks.
 */
module DepositManagement {
  import opened Options
  import opened DepositTypes
  import opened JsText

  /** A money movement on a member's deposit; `amount` may be negative. */
  datatype Transaction = Transaction(
    id: int,
    adminId: string,
    amount: int,
    date: int,
    note: Option<string>)

  /** A member's deposit document: its product entries and its transactions. */
  datatype Deposit = Deposit(products: seq<DepositProduct>, transactions: seq<Transaction>)

  /** `calculateBalance`: `transactions.reduce((sum, txn) => sum + txn.amount, 0)`, folded from the left. */
  function Balance(transactions: seq<Transaction>): (r: int)
    ensures transactions == [] ==> r == 0
    ensures (forall t | t in transactions :: t.amount >= 0) ==> r >= 0
  {
    if transactions == [] then 0
    else Balance(transactions[..|transactions| - 1]) + transactions[|transactions| - 1].amount
  }

  /** The balance of a concatenation is the sum of the two balances. */
  lemma {:induction false} BalanceConcat(a: seq<Transaction>, b: seq<Transaction>)
    ensures Balance(a + b) == Balance(a) + Balance(b)
  {
    if b == [] {
      assert a + b == a;
    } else {
      assert (a + b)[..|a + b| - 1] == a + b[..|b| - 1];
      BalanceConcat(a, b[..|b| - 1]);
    }
  }

  /** Appending one transaction raises the balance by exactly its amount. */
  lemma BalanceAppend(transactions: seq<Transaction>, t: Transaction)
    ensures Balance(transactions + [t]) == Balance(transactions) + t.amount
  {
    BalanceConcat(transactions, [t]);
  }

  /** `editProduct`: every entry with the target id gets `newCount`; nothing else changes. No clamping. */
  function EditProduct(products: seq<DepositProduct>, productId: int, newCount: int): (r: seq<DepositProduct>)
    ensures |r| == |products|
    ensures forall i :: 0 <= i < |r| ==>
      if products[i].id == productId then r[i] == products[i].(count := newCount) else r[i] == products[i]
  {
    if products == [] then []
    else
      var head := if products[0].id == productId then products[0].(count := newCount) else products[0];
      [head] + EditProduct(products[1..], productId, newCount)
  }

  /** The "-" button on an entry with count 0 stores -1: counts are not clamped at zero. */
  lemma EditDoesNotClamp(p: DepositProduct)
    requires p.count == 0
    ensures EditProduct([p], p.id, p.count - 1)[0].count == -1
  {
  }

  /** `removeProduct`: every entry with the id is dropped, the others keep their order. */
  function RemoveProduct(products: seq<DepositProduct>, productId: int): (r: seq<DepositProduct>)
    ensures forall p :: p in r <==> p in products && p.id != productId
    ensures |r| <= |products|
  {
    if products == [] then []
    else if products[0].id != productId then [products[0]] + RemoveProduct(products[1..], productId)
    else RemoveProduct(products[1..], productId)
  }

  /** Removal works entry by entry: it distributes over concatenation, so order is kept. */
  lemma {:induction false} RemoveProductConcat(a: seq<DepositProduct>, b: seq<DepositProduct>, productId: int)
    ensures RemoveProduct(a + b, productId) == RemoveProduct(a, productId) + RemoveProduct(b, productId)
  {
    if a == [] {
      assert a + b == b;
    } else {
      assert (a + b)[1..] == a[1..] + b;
      RemoveProductConcat(a[1..], b, productId);
    }
  }

  /** Removing an id no entry carries changes nothing. */
  lemma {:induction false} RemoveAbsentProduct(products: seq<DepositProduct>, productId: int)
    requires forall i :: 0 <= i < |products| ==> products[i].id != productId
    ensures RemoveProduct(products, productId) == products
  {
    if products != [] {
      RemoveAbsentProduct(products[1..], productId);
    }
  }

  /** Removing twice is removing once. */
  lemma RemoveProductIdempotent(products: seq<DepositProduct>, productId: int)
    ensures RemoveProduct(RemoveProduct(products, productId), productId) == RemoveProduct(products, productId)
  {
    var once := RemoveProduct(products, productId);
    forall i | 0 <= i < |once| ensures once[i].id != productId {
      assert once[i] in once;
    }
    RemoveAbsentProduct(once, productId);
  }

  /** Firestore's `arrayUnion` with one element: appended unless an equal element is present. */
  function ArrayUnion<T(==)>(s: seq<T>, x: T): (r: seq<T>)
    ensures x in r
    ensures x !in s ==> r == s + [x]
    ensures x in s ==> r == s
  {
    if x in s then s else s + [x]
  }

  /** Adding a transaction not already present raises the balance by exactly its amount. */
  lemma BalanceArrayUnion(transactions: seq<Transaction>, t: Transaction)
    requires t !in transactions
    ensures Balance(ArrayUnion(transactions, t)) == Balance(transactions) + t.amount
  {
    BalanceAppend(transactions, t);
  }

  /** The count field's `onChangeText`: `parseInt(text) || 1`, so `NaN` and zero give 1. */
  function CountInput(text: string): (r: int)
    ensures r != 0
    ensures ParseInt(text) == None ==> r == 1
    ensures ParseInt(text).Some? && ParseInt(text).value != 0 ==> r == ParseInt(text).value
  {
    match ParseInt(text)
    case None => 1
    case Some(n) => if n == 0 then 1 else n
  }

  /** Typing the decimal rendering of a nonzero count sets exactly that count. */
  lemma CountInputShowInt(n: int)
    requires n != 0
    ensures CountInput(ShowInt(n)) == n
  {
    ParseIntShowInt(n);
  }

  /** The entry `addProduct` creates: not paid, not received, no points. */
  function NewDepositProduct(id: int, title: string, count: int): (p: DepositProduct)
    ensures p.id == id && p.title == title && p.count == count
    ensures !p.paid && p.received == Some(false) && !p.points
  {
    DepositProduct(id, title, count, false, Some(false), false)
  }

  /**
   * The note stored with a transaction: `transactionNote || undefined`.
   * In a stored transaction `None` is a missing note; in the element
   * `addTransaction` writes it is a `note` field whose value is `undefined`.
   */
  function NoteOf(text: string): (r: Option<string>)
    ensures r == None <==> text == ""
    ensures r.Some? ==> r.value == text
  {
    if text == "" then None else Some(text)
  }

  /**
   * Whether Firestore, set up with its default settings, accepts the element
   * `addTransaction` writes: a field whose value is `undefined` is refused,
   * and the whole `updateDoc` call with it.
   */
  predicate WriteAccepted(t: Transaction)
  {
    t.note.Some?
  }

  /**
   * The screen's state: the `deposits` collection keyed by member id (the
   * live snapshot and the documents it mirrors are taken as one), and the
   * form fields for a new product and a new transaction.
   */
  class DepositStore {
    var deposits: map<string, Deposit>
    var newTitle: string
    var newCount: int
    var amountText: string
    var noteText: string
    const adminId: string

    constructor (deposits: map<string, Deposit>, adminId: string)
      ensures this.deposits == deposits && this.adminId == adminId
      ensures newTitle == "" && newCount == 1 && amountText == "" && noteText == ""
    {
      this.deposits := deposits;
      this.adminId := adminId;
      newTitle := "";
      newCount := 1;
      amountText := "";
      noteText := "";
    }

    /** The count field's `onChangeText`. */
    method SetCountText(text: string)
      modifies this
      ensures newCount == CountInput(text)
      ensures deposits == old(deposits) && newTitle == old(newTitle)
      ensures amountText == old(amountText) && noteText == old(noteText)
    {
      newCount := CountInput(text);
    }

    /**
     * `addProduct`: an empty title or a count of 0 or less does nothing.
     * Otherwise a fresh entry (not paid, not received, no points) is added
     * to the member's products and the form is reset; a missing member
     * document makes the update fail before the reset.
     */
    method AddProduct(userId: string, freshId: int) returns (added: bool)
      modifies this
      ensures added <==> old(newTitle) != "" && old(newCount) > 0 && userId in old(deposits)
      ensures !added ==> deposits == old(deposits) && newTitle == old(newTitle) && newCount == old(newCount)
      ensures added ==>
        && deposits == old(deposits)[userId := old(deposits)[userId].(products :=
             ArrayUnion(old(deposits)[userId].products, NewDepositProduct(freshId, old(newTitle), old(newCount))))]
        && newTitle == "" && newCount == 1
      ensures amountText == old(amountText) && noteText == old(noteText)
    {
      if newTitle == "" || newCount <= 0 {
        return false;
      }
      if userId !in deposits {
        return false;
      }
      var entry := NewDepositProduct(freshId, newTitle, newCount);
      var deposit := deposits[userId];
      deposits := deposits[userId := deposit.(products := ArrayUnion(deposit.products, entry))];
      newTitle := "";
      newCount := 1;
      added := true;
    }

    /** `editProduct` for one member; a member missing from the snapshot changes nothing. */
    method EditProductOf(userId: string, productId: int, newCount: int)
      modifies this
      ensures userId in old(deposits) ==>
        deposits == old(deposits)[userId := old(deposits)[userId].(products :=
          EditProduct(old(deposits)[userId].products, productId, newCount))]
      ensures userId !in old(deposits) ==> deposits == old(deposits)
      ensures newTitle == old(newTitle) && this.newCount == old(this.newCount)
      ensures amountText == old(amountText) && noteText == old(noteText)
    {
      if userId in deposits {
        var deposit := deposits[userId];
        deposits := deposits[userId := deposit.(products := EditProduct(deposit.products, productId, newCount))];
      }
    }

    /** `removeProduct` for one member; a member missing from the snapshot changes nothing. */
    method RemoveProductOf(userId: string, productId: int)
      modifies this
      ensures userId in old(deposits) ==>
        deposits == old(deposits)[userId := old(deposits)[userId].(products :=
          RemoveProduct(old(deposits)[userId].products, productId))]
      ensures userId !in old(deposits) ==> deposits == old(deposits)
      ensures newTitle == old(newTitle) && newCount == old(newCount)
      ensures amountText == old(amountText) && noteText == old(noteText)
    {
      if userId in deposits {
        var deposit := deposits[userId];
        deposits := deposits[userId := deposit.(products := RemoveProduct(deposit.products, productId))];
      }
    }

    /**
     * `addTransaction` as written: an amount that is `NaN` or 0 does
     * nothing, and so does an empty note, whose `undefined` field makes
     * Firestore refuse the update before the fields are cleared. Otherwise
     * the transaction is recorded as by `AddTransactionOmittingEmptyNote`.
     */
    method AddTransaction(userId: string, freshId: int, now: int) returns (added: bool)
      modifies this
      ensures added <==> ParseAmount(old(amountText)).Some? && ParseAmount(old(amountText)).value != 0
                         && userId in old(deposits) && old(noteText) != ""
      ensures !added ==> deposits == old(deposits) && amountText == old(amountText) && noteText == old(noteText)
      ensures added ==>
        var t := Transaction(freshId, adminId, ParseAmount(old(amountText)).value, now, Some(old(noteText)));
        var before := old(deposits)[userId].transactions;
        && deposits == old(deposits)[userId := old(deposits)[userId].(transactions := ArrayUnion(before, t))]
        && (t !in before ==> Balance(deposits[userId].transactions) == Balance(before) + t.amount)
        && amountText == "" && noteText == ""
      ensures newTitle == old(newTitle) && newCount == old(newCount)
    {
      var amount := ParseAmount(amountText);
      if amount.None? || amount.value == 0 || userId !in deposits {
        return false;
      }
      if !WriteAccepted(Transaction(freshId, adminId, amount.value, now, NoteOf(noteText))) {
        return false;
      }
      added := AddTransactionOmittingEmptyNote(userId, freshId, now);
    }

    /**
     * `addTransaction` as intended, with the `note` key left out when the
     * note is empty: an amount that is `NaN` or 0 does nothing. Otherwise
     * the transaction (this admin, time `now`, the note or none) is added to
     * the member's transactions, which raises the balance by the amount,
     * and the amount and note fields are cleared.
     */
    method AddTransactionOmittingEmptyNote(userId: string, freshId: int, now: int) returns (added: bool)
      modifies this
      ensures added <==> ParseAmount(old(amountText)).Some? && ParseAmount(old(amountText)).value != 0
                         && userId in old(deposits)
      ensures !added ==> deposits == old(deposits) && amountText == old(amountText) && noteText == old(noteText)
      ensures added ==>
        var t := Transaction(freshId, adminId, ParseAmount(old(amountText)).value, now, NoteOf(old(noteText)));
        var before := old(deposits)[userId].transactions;
        && deposits == old(deposits)[userId := old(deposits)[userId].(transactions := ArrayUnion(before, t))]
        && (t !in before ==> Balance(deposits[userId].transactions) == Balance(before) + t.amount)
        && amountText == "" && noteText == ""
      ensures newTitle == old(newTitle) && newCount == old(newCount)
    {
      var amount := ParseAmount(amountText);
      if amount.None? || amount.value == 0 {
        return false;
      }
      if userId !in deposits {
        return false;
      }
      var t := Transaction(freshId, adminId, amount.value, now, NoteOf(noteText));
      var deposit := deposits[userId];
      if t !in deposit.transactions {
        BalanceArrayUnion(deposit.transactions, t);
      }
      deposits := deposits[userId := deposit.(transactions := ArrayUnion(deposit.transactions, t))];
      amountText := "";
      noteText := "";
      added := true;
    }
  }

  /** An empty note, the form's default, records nothing and keeps what was typed. */
  method EmptyNoteRecordsNothing(store: DepositStore, userId: string, freshId: int, now: int) returns (added: bool)
    requires store.noteText == ""
    modifies store
    ensures !added
    ensures store.deposits == old(store.deposits) && store.amountText == old(store.amountText)
  {
    added := store.AddTransaction(userId, freshId, now);
  }
}
