/** What check_clients does with one line read from a client: it tests the
    line against the commands it knows and picks the reply. The stock
    operations `buy_stock` and `sell_stock` are declared but never defined,
    so they are parameters here: functions over a store of type `S` about
    which nothing is known. */
module Commands {
  import opened Wrappers
  import opened Decimal
  import opened StockTree

  /** The command a line was recognised as. `NoCommand` covers a line that
      names no command and a buy or sell whose two numbers do not parse:
      both get no reply. */
  datatype Command = ShowAll | Buy(id: int, amount: int) | Sell(id: int, amount: int) | NoCommand

  const BuySuccess := "[buy] success\n"
  const NotEnoughStock := "Not enough left stock\n"
  const SellSuccess := "[sell] success\n"

  /** The line as the C string functions see it: everything before the
      first NUL character. */
  function CStr(s: string): (t: string)
    ensures |t| <= |s| && forall i :: 0 <= i < |t| ==> t[i] == s[i] && t[i] != '\0'
    ensures |t| < |s| ==> s[|t|] == '\0'
  {
    if s == [] || s[0] == '\0' then [] else [s[0]] + CStr(s[1..])
  }

  /** `strncmp(text, p, |p|) == 0` for a `p` without NUL: the C string
      `text` starts with `p`. */
  predicate HasPrefix(text: string, p: string) {
    |p| <= |text| && text[..|p|] == p
  }

  /** The character at index `i` of the C string held in `s`; past the end
      of `s` comes the terminating NUL. */
  function CharAt(s: string, i: nat): char {
    if i < |s| then s[i] else '\0'
  }

  /** `strncmp(a, b, n) == 0`, character by character from index `i`: the
      characters agree up to index `n`, or up to a NUL both strings hold at
      the same index, where the comparison stops. */
  predicate StrNEqual(a: string, b: string, i: nat, n: nat)
    decreases n - i
  {
    i >= n || (CharAt(a, i) == CharAt(b, i) && (CharAt(a, i) == '\0' || StrNEqual(a, b, i + 1, n)))
  }

  /** The C comparison `strncmp(buf, p, |p|) == 0` against a literal `p`
      without NUL holds exactly when the C string in `buf` starts with `p`. */
  lemma StrncmpIsPrefix(buf: string, p: string)
    requires forall j :: 0 <= j < |p| ==> p[j] != '\0'
    ensures StrNEqual(buf, p, 0, |p|) <==> HasPrefix(CStr(buf), p)
  {
    StrNEqualAgree(buf, p, 0);
    var t := CStr(buf);
    if forall j :: 0 <= j < |p| ==> CharAt(buf, j) == p[j] {
      CStrKeepsPrefix(buf, |p|);
      assert t[..|p|] == p;
    }
  }

  /** A prefix of `s` without NUL is a prefix of its C string. */
  lemma {:induction false} CStrKeepsPrefix(s: string, n: nat)
    requires forall j :: 0 <= j < n ==> CharAt(s, j) != '\0'
    ensures n <= |CStr(s)| && CStr(s)[..n] == s[..n]
  {
    if n > 0 {
      assert CharAt(s, 0) != '\0';
      forall j | 0 <= j < n - 1
        ensures CharAt(s[1..], j) != '\0'
      {
        assert CharAt(s, j + 1) != '\0';
      }
      CStrKeepsPrefix(s[1..], n - 1);
    }
  }

  /** Against a string without NUL, the comparison from `i` is agreement at
      every index from `i` up to its length. */
  lemma {:induction false} StrNEqualAgree(buf: string, p: string, i: nat)
    requires i <= |p|
    requires forall j :: 0 <= j < |p| ==> p[j] != '\0'
    ensures StrNEqual(buf, p, i, |p|) <==> forall j :: i <= j < |p| ==> CharAt(buf, j) == p[j]
    decreases |p| - i
  {
    if i < |p| {
      StrNEqualAgree(buf, p, i + 1);
    }
  }

  /** The show test compares `(buf, "show", 4)` with 0. That is a comma
      expression, not a call to `strncmp`: it evaluates `buf` and `"show"`,
      discards both and yields 4. So the test is `4 == 0` whatever the
      line holds. */
  predicate ShowRequested(text: string) {
    4 == 0
  }

  /** The command a line asks for. The three tests run in this order and a
      flag stops later ones once one has matched. A buy or sell whose two
      numbers do not parse still counts as matched. */
  function Classify(line: string): (c: Command)
    ensures c != ShowAll
    ensures c.Buy? ==> HasPrefix(CStr(line), "buy ")
                       && ScanTwoInts(CStr(line)[4..]) == Some((c.id, c.amount))
    ensures c.Sell? ==> HasPrefix(CStr(line), "sell ")
                        && ScanTwoInts(CStr(line)[5..]) == Some((c.id, c.amount))
  {
    var text := CStr(line);
    if ShowRequested(text) then ShowAll
    else if HasPrefix(text, "buy ") then
      match ScanTwoInts(text[4..])
      case Some((id, amount)) => Buy(id, amount)
      case None => NoCommand
    else if HasPrefix(text, "sell ") then
      match ScanTwoInts(text[5..])
      case Some((id, amount)) => Sell(id, amount)
      case None => NoCommand
    else NoCommand
  }

  /** The store after the command and the reply written back, if any.
      `buy` returns the store after `buy_stock` and whether `buy_stock`
      returned nonzero; `sell` returns the store after `sell_stock`.
      Showing the stock needs a tree: `show_stock` dereferences the node it
      is given. */
  function Respond<S>(c: Command, root: Option<Tree>, store: S,
                      buy: (S, int, int) -> (S, bool), sell: (S, int, int) -> S)
    : (r: (S, Option<string>))
    requires c.ShowAll? ==> root.Some?
    ensures r.1.Some? <==> !c.NoCommand?
    ensures c.NoCommand? ==> r.0 == store
    ensures c.Buy? ==>
              r == (buy(store, c.id, c.amount).0,
                    Some(if buy(store, c.id, c.amount).1 then BuySuccess else NotEnoughStock))
    ensures c.Sell? ==> r == (sell(store, c.id, c.amount), Some(SellSuccess))
  {
    match c
    case ShowAll => (store, Some(ShowStock(root.value)))
    case Buy(id, amount) =>
      var (after, ok) := buy(store, id, amount);
      (after, Some(if ok then BuySuccess else NotEnoughStock))
    case Sell(id, amount) => (sell(store, id, amount), Some(SellSuccess))
    case NoCommand => (store, None)
  }

  /** The dispatch of check_clients for one line that is not end-of-file,
      step by step with its `command_was_processed` flag. It does exactly
      what `Respond(Classify(line), ...)` says: at most one branch runs,
      and never the show branch. */
  method ProcessLine<S>(line: string, root: Option<Tree>, store: S,
                        buy: (S, int, int) -> (S, bool), sell: (S, int, int) -> S)
    returns (store': S, reply: Option<string>)
    ensures (store', reply) == Respond(Classify(line), root, store, buy, sell)
  {
    var text := CStr(line);
    store', reply := store, None;
    var processed := false;
    if !processed && ShowRequested(text) {
      processed := true;
      // Dead: the show test is always false. `show_stock` of a NULL root
      // would dereference it, so the None case stands for undefined
      // behaviour, not for a reply the server gives.
      match root {
        case Some(t) => reply := Some(ShowStock(t));
        case None =>
      }
    }
    if !processed && HasPrefix(text, "buy ") {
      processed := true;
      match ScanTwoInts(text[4..]) {
        case Some((id, amount)) =>
          var (after, ok) := buy(store', id, amount);
          store' := after;
          reply := Some(if ok then BuySuccess else NotEnoughStock);
        case None =>
      }
    }
    if !processed && HasPrefix(text, "sell ") {
      processed := true;
      match ScanTwoInts(text[5..]) {
        case Some((id, amount)) =>
          reply := Some(SellSuccess);
          store' := sell(store', id, amount);
        case None =>
      }
    }
  }

  /** The converse of Classify's postconditions: a line that starts with a
      command and two numbers is that command, and a line that starts with
      neither command is nothing. */
  lemma ClassifyComplete(line: string)
    ensures var text := CStr(line);
      && (HasPrefix(text, "buy ") && ScanTwoInts(text[4..]).Some? ==>
            Classify(line) == Buy(ScanTwoInts(text[4..]).value.0, ScanTwoInts(text[4..]).value.1))
      && (HasPrefix(text, "sell ") && ScanTwoInts(text[5..]).Some? ==>
            Classify(line) == Sell(ScanTwoInts(text[5..]).value.0, ScanTwoInts(text[5..]).value.1))
      && (!HasPrefix(text, "buy ") && !HasPrefix(text, "sell ") ==> Classify(line) == NoCommand)
  {
    var text := CStr(line);
    if HasPrefix(text, "sell ") {
      assert text[..4] == "sell"[..4];
      assert !HasPrefix(text, "buy ");
    }
  }

  /** A string without NUL is its own C string. */
  lemma {:induction false} CStrWithoutNul(s: string)
    requires forall i :: 0 <= i < |s| ==> s[i] != '\0'
    ensures CStr(s) == s
  {
    if s != [] {
      CStrWithoutNul(s[1..]);
    }
  }

  /** A command a client prints with `%d`, a blank between the numbers and
      a newline at the end is recognised as that command. */
  lemma ClassifyFormatted(id: int, amount: int)
    ensures Classify("buy " + FormatInt(id) + " " + FormatInt(amount) + "\n") == Buy(id, amount)
    ensures Classify("sell " + FormatInt(id) + " " + FormatInt(amount) + "\n") == Sell(id, amount)
  {
    var args := FormatInt(id) + " " + FormatInt(amount) + "\n";
    ScanTwoFormatted(id, amount, "\n");
    ArgumentsWithoutNul(id, amount);
    Regroup("buy ", FormatInt(id), FormatInt(amount));
    ClassifyVerb("buy ", args);
    Regroup("sell ", FormatInt(id), FormatInt(amount));
    ClassifyVerb("sell ", args);
  }

  lemma Regroup(verb: string, a: string, b: string)
    ensures verb + a + " " + b + "\n" == verb + (a + " " + b + "\n")
  {
  }

  /** A verb and arguments without NUL: the line is classified by them. */
  lemma ClassifyVerb(verb: string, args: string)
    requires verb == "buy " || verb == "sell "
    requires forall i :: 0 <= i < |args| ==> args[i] != '\0'
    requires ScanTwoInts(args).Some?
    ensures verb == "buy " ==>
              Classify(verb + args) == Buy(ScanTwoInts(args).value.0, ScanTwoInts(args).value.1)
    ensures verb == "sell " ==>
              Classify(verb + args) == Sell(ScanTwoInts(args).value.0, ScanTwoInts(args).value.1)
  {
    var line := verb + args;
    CStrWithoutNul(line);
    assert line[..|verb|] == verb;
    assert line[|verb|..] == args;
    if verb == "sell " {
      assert line[..4] != "buy ";
    }
  }

  /** The digits, signs, blank and newline of a command have no NUL. */
  lemma ArgumentsWithoutNul(id: int, amount: int)
    ensures var args := FormatInt(id) + " " + FormatInt(amount) + "\n";
      forall i :: 0 <= i < |args| ==> args[i] != '\0'
  {
    var a, b := FormatInt(id), FormatInt(amount);
    assert forall i :: 0 <= i < |a| ==> a[i] != '\0';
    assert forall i :: 0 <= i < |b| ==> b[i] != '\0';
  }

  /** A client that prints `buy` or `sell` with two numbers gets the reply
      for that command and the store the stock operation leaves; a line
      that starts with neither command, `show` among them, gets no reply
      and leaves the store alone. */
  lemma CommandReplies<S>(id: int, amount: int, other: string, root: Option<Tree>, store: S,
                          buy: (S, int, int) -> (S, bool), sell: (S, int, int) -> S)
    requires !HasPrefix(CStr(other), "buy ") && !HasPrefix(CStr(other), "sell ")
    ensures Respond(Classify("buy " + FormatInt(id) + " " + FormatInt(amount) + "\n"),
                    root, store, buy, sell)
            == (buy(store, id, amount).0,
                Some(if buy(store, id, amount).1 then BuySuccess else NotEnoughStock))
    ensures Respond(Classify("sell " + FormatInt(id) + " " + FormatInt(amount) + "\n"),
                    root, store, buy, sell)
            == (sell(store, id, amount), Some(SellSuccess))
    ensures Respond(Classify(other), root, store, buy, sell) == (store, None)
    ensures Respond(Classify("show\n"), root, store, buy, sell) == (store, None)
  {
    ClassifyFormatted(id, amount);
    ClassifyComplete(other);
    ClassifyComplete("show\n");
  }
}
