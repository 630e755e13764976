/** The messenger bot: a contact shared in a private chat decides where a number's
    codes are delivered, and updates are acknowledged only after they are handled. */
module Bale {
  import opened Common

  /** `phone` is as the accounts table stores it; `name` is only shown to operators. */
  datatype Link = Link(phone: string, chat: int, name: Option<string>)

  /** `owner` is whose card it is, if the card says so. */
  datatype Contact = Contact(owner: Option<int>, number: string, name: Option<string>)

  /** One inbound message; a chat of 0 is a message without one. */
  datatype Update = Update(id: nat, chat: int, chatType: string, sender: Option<int>, contact: Option<Contact>)

  // ------------------------------------------------------------------ phone numbers

  /** The digits of a text. `isDigit` is the platform's idea of a digit character. */
  function Digits(raw: string, isDigit: char -> bool): string {
    if raw == "" then ""
    else if isDigit(raw[0]) then [raw[0]] + Digits(raw[1..], isDigit)
    else Digits(raw[1..], isDigit)
  }

  function NormalisePhone(raw: string, isDigit: char -> bool): string {
    var all := Digits(raw, isDigit);
    var digits := if "00" <= all then all[2..] else all;
    if "98" <= digits then "0" + digits[2..]
    else if "9" <= digits && |digits| == 10 then "0" + digits
    else digits
  }

  predicate Accepted(phone: string) {
    |phone| == 11 && "09" <= phone
  }

  /** A subscriber's number without any prefix: ten digits, the first of them a nine. */
  predicate Subscriber(n: string) {
    |n| == 10 && "9" <= n
  }

  /** The digits somebody may write for subscriber `n`: with the country code, with the
      trunk zero, or bare. A bare number that itself begins with the country code is
      not one of them. */
  predicate Spells(digits: string, n: string) {
    || digits == "98" + n
    || digits == "0" + n
    || (digits == n && !("98" <= n))
  }

  function WithoutAccess(digits: string): string {
    if "00" <= digits then digits[2..] else digits
  }

  /** A text is accepted exactly when its digits, less one international access code,
      spell a subscriber, and every spelling of one subscriber is stored alike. */
  lemma {:induction false} SpellingsAgree(raw: string, isDigit: char -> bool)
    ensures Accepted(NormalisePhone(raw, isDigit))
      <==> exists n :: Subscriber(n) && Spells(WithoutAccess(Digits(raw, isDigit)), n)
    ensures forall n :: Subscriber(n) && Spells(WithoutAccess(Digits(raw, isDigit)), n) ==>
              NormalisePhone(raw, isDigit) == "0" + n
  {
    var digits := WithoutAccess(Digits(raw, isDigit));
    var phone := NormalisePhone(raw, isDigit);
    forall n | Subscriber(n) && Spells(digits, n) ensures phone == "0" + n {
      if digits == "98" + n {
        assert digits[2..] == n && "98" <= digits;
      } else if digits == "0" + n {
        assert digits[0] == '0';
      }
    }
    if Accepted(phone) {
      var n := phone[1..];
      assert phone == "0" + n;
      if "98" <= digits {
        assert digits == "98" + digits[2..];
        assert phone[1..] == digits[2..];
      } else if "9" <= digits && |digits| == 10 {
        assert phone[1..] == digits;
      }
      assert Subscriber(n) && Spells(digits, n);
    }
  }

  // ------------------------------------------------------------------------ linking

  /** The link an update proves, if it proves one: the card is the sender's own, the
      chat is not known to be shared, and the number is a subscriber's. */
  function Proof(u: Update, isDigit: char -> bool): Option<Link> {
    if u.chat == 0 || u.contact.None? then None
    else
      var c := u.contact.value;
      if c.owner.None? || u.sender.None? || c.owner != u.sender then None
      else if u.chatType != "" && u.chatType != "private" then None
      else if !Accepted(NormalisePhone(c.number, isDigit)) then None
      else Some(Link(NormalisePhone(c.number, isDigit), u.chat, c.name))
  }

  /** What makes an update prove a link: sent in a chat that is not known to be shared, with
      the sender's own card, on which the digits spell subscriber `n`. */
  predicate ProvesFor(u: Update, l: Link, n: string, isDigit: char -> bool) {
    && u.chat != 0 && u.chatType in {"", "private"}
    && u.contact.Some? && u.contact.value.owner.Some? && u.sender == u.contact.value.owner
    && |n| == 10 && n[0] == '9' && Spells(WithoutAccess(Digits(u.contact.value.number, isDigit)), n)
    && l == Link("0" + n, u.chat, u.contact.value.name)
  }

  ghost predicate Proves(u: Update, l: Link, isDigit: char -> bool) {
    exists n :: ProvesFor(u, l, n, isDigit)
  }

  lemma {:induction false} ProofIff(u: Update, l: Link, isDigit: char -> bool)
    ensures Proof(u, isDigit) == Some(l) <==> Proves(u, l, isDigit)
  {
    hide NormalisePhone, Digits, WithoutAccess, Spells;
    if u.contact.Some? {
      SpellingsAgree(u.contact.value.number, isDigit);
      if Proof(u, isDigit) == Some(l) {
        var n :| Subscriber(n) && Spells(WithoutAccess(Digits(u.contact.value.number, isDigit)), n);
        assert ProvesFor(u, l, n, isDigit);
      }
      forall n | ProvesFor(u, l, n, isDigit) ensures Proof(u, isDigit) == Some(l) {
        assert Subscriber(n);
        assert NormalisePhone(u.contact.value.number, isDigit) == "0" + n;
      }
    }
  }

  /** The digits of a text are those of its parts, and a character is its own digit or
      none. */
  lemma {:induction false} DigitsOfParts(a: string, b: string, c: char, isDigit: char -> bool)
    ensures Digits(a + b, isDigit) == Digits(a, isDigit) + Digits(b, isDigit)
    ensures Digits([c], isDigit) == if isDigit(c) then [c] else ""
    ensures Digits("", isDigit) == ""
  {
    DigitsConcat(a, b, isDigit);
    assert [c][1..] == "";
  }

  lemma {:induction false} DigitsConcat(a: string, b: string, isDigit: char -> bool)
    ensures Digits(a + b, isDigit) == Digits(a, isDigit) + Digits(b, isDigit)
  {
    if a == "" {
      assert a + b == b;
    } else {
      var both := a + b;
      assert both[0] == a[0] && both[1..] == a[1..] + b;
      DigitsConcat(a[1..], b, isDigit);
    }
  }

  predicate Clash(a: Link, b: Link) {
    a.phone == b.phone || a.chat == b.chat
  }

  /** The rows that do not stand in the way of `l`. */
  function Clear(table: seq<Link>, l: Link): seq<Link> {
    if table == [] then []
    else
      var front := Clear(table[..|table| - 1], l);
      if Clash(table[|table| - 1], l) then front else front + [table[|table| - 1]]
  }

  function Put(table: seq<Link>, proof: Option<Link>): seq<Link> {
    match proof
    case None => table
    case Some(l) => Clear(table, l) + [l]
  }

  function Run(table: seq<Link>, batch: seq<Update>, isDigit: char -> bool): seq<Link> {
    if batch == [] then table
    else Put(Run(table, batch[..|batch| - 1], isDigit), Proof(batch[|batch| - 1], isDigit))
  }

  /** One number, one chat, in both directions. */
  predicate OneToOne(table: seq<Link>) {
    forall i, j :: 0 <= i < j < |table| ==> !Clash(table[i], table[j])
  }

  lemma {:induction false} ClearKeepsOthers(table: seq<Link>, l: Link)
    ensures forall r :: r in Clear(table, l) <==> r in table && !Clash(r, l)
  {
    if table != [] {
      ClearKeepsOthers(table[..|table| - 1], l);
      assert table == table[..|table| - 1] + [table[|table| - 1]];
    }
  }

  lemma {:induction false} OneToOneAppend(table: seq<Link>, l: Link)
    ensures OneToOne(table + [l]) <==> OneToOne(table) && forall r :: r in table ==> !Clash(r, l)
  {
    var more := table + [l];
    assert forall i :: 0 <= i < |table| ==> more[i] == table[i];
    assert more[|table|] == l;
    if OneToOne(more) {
      forall r | r in table ensures !Clash(r, l) {
        var i :| 0 <= i < |table| && table[i] == r;
        assert !Clash(more[i], more[|table|]);
      }
    }
  }

  lemma {:induction false} ClearStaysOneToOne(table: seq<Link>, l: Link)
    requires OneToOne(table)
    ensures OneToOne(Clear(table, l))
  {
    hide OneToOne;
    if table != [] {
      var front, last := table[..|table| - 1], table[|table| - 1];
      assert table == front + [last];
      OneToOneAppend(front, last);
      ClearStaysOneToOne(front, l);
      ClearKeepsOthers(front, l);
      OneToOneAppend(Clear(front, l), last);
    } else {
      assert Clear(table, l) == table;
    }
  }

  /** Links stay one-to-one in both directions over every run. */
  lemma {:induction false} LinksStayOneToOne(table: seq<Link>, batch: seq<Update>, isDigit: char -> bool)
    requires OneToOne(table)
    ensures OneToOne(Run(table, batch, isDigit))
    ensures var links := Run(table, batch, isDigit);
            forall i, j :: 0 <= i < j < |links| ==> links[i].phone != links[j].phone && links[i].chat != links[j].chat
  {
    if batch != [] {
      var front, proof := batch[..|batch| - 1], Proof(batch[|batch| - 1], isDigit);
      LinksStayOneToOne(table, front, isDigit);
      if proof.Some? {
        var before := Run(table, front, isDigit);
        ClearStaysOneToOne(before, proof.value);
        ClearKeepsOthers(before, proof.value);
        OneToOneAppend(Clear(before, proof.value), proof.value);
      }
    }
  }

  /** Some update of the batch proves a link that displaces `r`. */
  predicate Touched(r: Link, batch: seq<Update>, isDigit: char -> bool) {
    exists i :: 0 <= i < |batch|
      && Proof(batch[i], isDigit).Some? && Clash(r, Proof(batch[i], isDigit).value)
  }

  /** Some update of the batch proves a link with this number or this chat. */
  ghost predicate Displaced(r: Link, batch: seq<Update>, isDigit: char -> bool) {
    exists i, l :: 0 <= i < |batch| && Proves(batch[i], l, isDigit) && (l.phone == r.phone || l.chat == r.chat)
  }

  lemma {:induction false} DisplacedIsTouched(r: Link, batch: seq<Update>, isDigit: char -> bool)
    ensures Displaced(r, batch, isDigit) <==> Touched(r, batch, isDigit)
  {
    hide Proves, Proof;
    if Touched(r, batch, isDigit) {
      var i :| 0 <= i < |batch| && Proof(batch[i], isDigit).Some? && Clash(r, Proof(batch[i], isDigit).value);
      ProofIff(batch[i], Proof(batch[i], isDigit).value, isDigit);
    }
    if i, l :| 0 <= i < |batch| && Proves(batch[i], l, isDigit) && (l.phone == r.phone || l.chat == r.chat) {
      ProofIff(batch[i], l, isDigit);
      assert Clash(r, Proof(batch[i], isDigit).value);
    }
  }

  /** A link is in the table exactly when it was the last word on its number and on its
      chat: proved by an update that no later one displaces, or there all along. */
  lemma {:induction false} LinkIsTheLastWord(table: seq<Link>, batch: seq<Update>, isDigit: char -> bool, r: Link)
    ensures r in Run(table, batch, isDigit) <==>
      || (r in table && !Displaced(r, batch, isDigit))
      || (exists i :: 0 <= i < |batch| && Proves(batch[i], r, isDigit) && !Displaced(r, batch[i + 1..], isDigit))
  {
    hide Run, Proof, Proves, Displaced, Touched;
    ProofIsTheLastWord(table, batch, isDigit, r);
    DisplacedIsTouched(r, batch, isDigit);
    forall i | 0 <= i < |batch|
      ensures Proof(batch[i], isDigit) == Some(r) <==> Proves(batch[i], r, isDigit)
      ensures Displaced(r, batch[i + 1..], isDigit) <==> Touched(r, batch[i + 1..], isDigit)
    {
      ProofIff(batch[i], r, isDigit);
      DisplacedIsTouched(r, batch[i + 1..], isDigit);
    }
  }

  lemma {:induction false} ProofIsTheLastWord(table: seq<Link>, batch: seq<Update>, isDigit: char -> bool, r: Link)
    ensures r in Run(table, batch, isDigit) <==>
      || (r in table && !Touched(r, batch, isDigit))
      || (exists i :: 0 <= i < |batch| && Proof(batch[i], isDigit) == Some(r)
            && !Touched(r, batch[i + 1..], isDigit))
  {
    if batch != [] {
      var n := |batch| - 1;
      var front, proof := batch[..n], Proof(batch[n], isDigit);
      ProofIsTheLastWord(table, front, isDigit, r);
      assert batch == front + [batch[n]];
      TouchedSplits(r, front, batch[n], isDigit);
      forall j | 1 <= j <= n
        ensures Touched(r, batch[j..], isDigit)
          <==> Touched(r, front[j..], isDigit) || (proof.Some? && Clash(r, proof.value))
      {
        assert batch[j..] == front[j..] + [batch[n]];
        TouchedSplits(r, front[j..], batch[n], isDigit);
      }
      assert batch[n + 1..] == [];
      if proof.Some? {
        ClearKeepsOthers(Run(table, front, isDigit), proof.value);
      }
    }
  }

  lemma {:induction false} TouchedSplits(r: Link, batch: seq<Update>, u: Update, isDigit: char -> bool)
    ensures Touched(r, batch + [u], isDigit) <==>
      Touched(r, batch, isDigit) || (Proof(u, isDigit).Some? && Clash(r, Proof(u, isDigit).value))
  {
    var more := batch + [u];
    assert more[|batch|] == u;
    if Touched(r, batch, isDigit) {
      var i :| 0 <= i < |batch| && Proof(batch[i], isDigit).Some? && Clash(r, Proof(batch[i], isDigit).value);
      assert more[i] == batch[i];
    }
  }

  // ------------------------------------------------------------------------- replay

  /** The rows of a table that nothing in the batch displaces. */
  function Untouched(table: seq<Link>, batch: seq<Update>, isDigit: char -> bool): seq<Link> {
    if table == [] then []
    else
      var front := Untouched(table[..|table| - 1], batch, isDigit);
      if Touched(table[|table| - 1], batch, isDigit) then front else front + [table[|table| - 1]]
  }

  lemma {:induction false} UntouchedConcat(a: seq<Link>, b: seq<Link>, batch: seq<Update>, isDigit: char -> bool)
    ensures Untouched(a + b, batch, isDigit) == Untouched(a, batch, isDigit) + Untouched(b, batch, isDigit)
  {
    hide Touched;
    if b == [] {
      assert a + b == a;
    } else {
      var front, both := b[..|b| - 1], a + b;
      UntouchedConcat(a, front, batch, isDigit);
      assert both[..|both| - 1] == a + front;
      assert both[|both| - 1] == b[|b| - 1];
    }
  }

  lemma {:induction false} ClearConcat(a: seq<Link>, b: seq<Link>, l: Link)
    ensures Clear(a + b, l) == Clear(a, l) + Clear(b, l)
  {
    hide Clash;
    if b == [] {
      assert a + b == a;
    } else {
      var front, both := b[..|b| - 1], a + b;
      ClearConcat(a, front, l);
      assert both[..|both| - 1] == a + front;
      assert both[|both| - 1] == b[|b| - 1];
    }
  }

  lemma {:induction false} UntouchedGrows(table: seq<Link>, batch: seq<Update>, u: Update, isDigit: char -> bool)
    ensures var before := Untouched(table, batch, isDigit);
            var after := Untouched(table, batch + [u], isDigit);
            match Proof(u, isDigit)
            case None => after == before
            case Some(l) => after == Clear(before, l)
  {
    if table != [] {
      var front, last := table[..|table| - 1], table[|table| - 1];
      UntouchedGrows(front, batch, u, isDigit);
      TouchedSplits(last, batch, u, isDigit);
      var kept := Untouched(front, batch, isDigit);
      if Proof(u, isDigit).Some? {
        ClearConcat(kept, [last], Proof(u, isDigit).value);
      }
    }
  }

  /** What a batch does to any table: it removes what it displaces and adds what it
      would have made of the empty table. */
  lemma {:induction false} RunSplits(table: seq<Link>, batch: seq<Update>, isDigit: char -> bool)
    ensures Run(table, batch, isDigit) == Untouched(table, batch, isDigit) + Run([], batch, isDigit)
  {
    if batch == [] {
      NothingTouches(table, isDigit);
    } else {
      var front, u := batch[..|batch| - 1], batch[|batch| - 1];
      RunSplits(table, front, isDigit);
      assert batch == front + [u];
      UntouchedGrows(table, front, u, isDigit);
      if Proof(u, isDigit).Some? {
        ClearConcat(Untouched(table, front, isDigit), Run([], front, isDigit), Proof(u, isDigit).value);
      }
    }
  }

  lemma {:induction false} NothingTouches(table: seq<Link>, isDigit: char -> bool)
    ensures Untouched(table, [], isDigit) == table
  {
    if table != [] {
      NothingTouches(table[..|table| - 1], isDigit);
    }
  }

  lemma {:induction false} UntouchedTwice(table: seq<Link>, part: seq<Update>, whole: seq<Update>, isDigit: char -> bool)
    requires part <= whole
    ensures Untouched(Untouched(table, part, isDigit), whole, isDigit) == Untouched(table, whole, isDigit)
  {
    if table != [] {
      var front, last := table[..|table| - 1], table[|table| - 1];
      UntouchedTwice(front, part, whole, isDigit);
      if Touched(last, part, isDigit) {
        assert Touched(last, whole, isDigit);
      } else {
        UntouchedConcat(Untouched(front, part, isDigit), [last], whole, isDigit);
      }
    }
  }

  lemma {:induction false} AllTouched(table: seq<Link>, whole: seq<Update>, isDigit: char -> bool)
    requires forall r :: r in table ==> Touched(r, whole, isDigit)
    ensures Untouched(table, whole, isDigit) == []
  {
    if table != [] {
      AllTouched(table[..|table| - 1], whole, isDigit);
    }
  }

  lemma {:induction false} AddedIsTouched(part: seq<Update>, whole: seq<Update>, isDigit: char -> bool)
    requires part <= whole
    ensures Untouched(Run([], part, isDigit), whole, isDigit) == []
  {
    hide Clash, Run, Proof;
    forall r | r in Run([], part, isDigit) ensures Touched(r, whole, isDigit) {
      ProofIsTheLastWord([], part, isDigit, r);
      var i :| 0 <= i < |part| && Proof(part[i], isDigit) == Some(r);
      assert whole[i] == part[i];
      ClashesWithItself(r);
    }
    AllTouched(Run([], part, isDigit), whole, isDigit);
  }

  lemma ClashesWithItself(r: Link)
    ensures Clash(r, r)
  {
  }

  /** A batch cut short after any prefix and then handled from its start gives the table
      that handling it once gives, row for row. */
  lemma {:induction false} ReplayIsHarmless(table: seq<Link>, part: seq<Update>, whole: seq<Update>, isDigit: char -> bool)
    requires part <= whole
    ensures Run(Run(table, part, isDigit), whole, isDigit) == Run(table, whole, isDigit)
  {
    hide Run, Untouched;
    var left, added := Untouched(table, part, isDigit), Run([], part, isDigit);
    RunSplits(table, part, isDigit);
    RunSplits(left + added, whole, isDigit);
    RunSplits(table, whole, isDigit);
    UntouchedConcat(left, added, whole, isDigit);
    UntouchedTwice(table, part, whole, isDigit);
    AddedIsTouched(part, whole, isDigit);
  }

  lemma {:induction false} RunConcat(table: seq<Link>, a: seq<Update>, b: seq<Update>, isDigit: char -> bool)
    ensures Run(table, a + b, isDigit) == Run(Run(table, a, isDigit), b, isDigit)
  {
    if b == [] {
      assert a + b == a;
    } else {
      RunConcat(table, a, b[..|b| - 1], isDigit);
      assert (a + b)[..|a + b| - 1] == a + b[..|b| - 1];
    }
  }

  // ------------------------------------------------------------------------ the bot

  function NextOffset(offset: nat, batch: seq<Update>): nat {
    if batch == [] then offset else Max(NextOffset(offset, batch[..|batch| - 1]), batch[|batch| - 1].id + 1)
  }

  /** What is committed: the links, and the offset below which updates are acknowledged. */
  class Bot {
    var links: seq<Link>
    var offset: nat
    const isDigit: char -> bool

    constructor (isDigit: char -> bool)
      ensures links == [] && offset == 0 && this.isDigit == isDigit
    {
      links, offset, this.isDigit := [], 0, isDigit;
    }

    /** Move the number and the chat to this link, if the contact proves it. */
    method Relink(u: Update) returns (linked: bool)
      requires u.chat != 0 && u.contact.Some?
      modifies this`links
      ensures links == Put(old(links), Proof(u, isDigit))
      ensures linked <==> exists l :: Proves(u, l, isDigit)
    {
      if exists l :: Proves(u, l, isDigit) {
        ghost var l :| Proves(u, l, isDigit);
        ProofIff(u, l, isDigit);
      }
      if Proof(u, isDigit).Some? {
        ProofIff(u, Proof(u, isDigit).value, isDigit);
      }
      var c := u.contact.value;
      if c.owner.None? || u.sender.None? || c.owner != u.sender {
        return false;
      }
      if u.chatType != "" && u.chatType != "private" {
        return false;
      }
      var phone := NormalisePhone(c.number, isDigit);
      if |phone| != 11 || !("09" <= phone) {
        return false;
      }
      var made := Link(phone, u.chat, c.name);
      var kept: seq<Link> := [];
      for i := 0 to |links|
        invariant kept == Clear(links[..i], made)
        invariant links == old(links)
      {
        assert links[..i + 1][..i] == links[..i];
        if links[i].phone != phone && links[i].chat != u.chat {
          kept := kept + [links[i]];
        }
      }
      assert links[..|links|] == links;
      links := kept + [made];
      linked := true;
    }

    method Handle(u: Update)
      modifies this`links
      ensures links == Put(old(links), Proof(u, isDigit))
    {
      if u.chat == 0 || u.contact.None? {
        return;
      }
      var _ := Relink(u);
    }

    /** Handle what the transport returned. `dies` is the update before which the
        process dies, if it does; the offset is then not moved. */
    method Poll(fetched: Option<seq<Update>>, dies: Option<nat>) returns (handled: nat)
      modifies this
      ensures fetched.None? ==> links == old(links) && offset == old(offset) && handled == 0
      ensures fetched.Some? ==>
        && handled == (if dies.Some? then Min(dies.value, |fetched.value|) else |fetched.value|)
        && links == Run(old(links), fetched.value[..handled], isDigit)
        && offset == (if handled < |fetched.value| || dies.Some? then old(offset)
                      else NextOffset(old(offset), fetched.value))
    {
      if fetched.None? {
        return 0;
      }
      var batch, next := fetched.value, offset;
      for i := 0 to |batch|
        invariant dies.Some? ==> i <= dies.value
        invariant links == Run(old(links), batch[..i], isDigit)
        invariant next == NextOffset(offset, batch[..i]) && offset == old(offset)
      {
        if dies == Some(i) {
          return i;
        }
        assert batch[..i + 1][..i] == batch[..i];
        Handle(batch[i]);
        next := Max(next, batch[i].id + 1);
      }
      assert batch[..|batch|] == batch;
      handled := |batch|;
      if dies.None? {
        offset := next;
      }
    }
  }

  // ----------------------------------------------------------------------- any run

  /** `log` is everything the messenger has received so far, oldest first. */
  datatype World = World(log: seq<Update>, links: seq<Link>, offset: nat)

  /** Something arrives, or the bot polls: at most `limit` updates come back, and the
      process dies after `survives` of them unless it survives them all. */
  datatype Step = Arrive(u: Update) | Polled(limit: nat, survives: Option<nat>)

  /** The number of updates that are acknowledged. */
  function Acknowledged(log: seq<Update>, offset: nat): (k: nat)
    ensures k <= |log|
  {
    if log != [] && log[0].id < offset then 1 + Acknowledged(log[1..], offset) else 0
  }

  function Batch(w: World, limit: nat): seq<Update> {
    var k := Acknowledged(w.log, w.offset);
    w.log[k..k + Min(limit, |w.log| - k)]
  }

  function Next(w: World, s: Step, isDigit: char -> bool): World {
    match s
    case Arrive(u) => w.(log := w.log + [u])
    case Polled(limit, survives) =>
      var batch := Batch(w, limit);
      if survives.Some? then w.(links := Run(w.links, batch[..Min(survives.value, |batch|)], isDigit))
      else w.(links := Run(w.links, batch, isDigit), offset := NextOffset(w.offset, batch))
  }

  /** The messenger numbers its updates upwards. */
  predicate Ascending(log: seq<Update>) {
    forall i, j :: 0 <= i < j < |log| ==> log[i].id < log[j].id
  }

  function RunSteps(steps: seq<Step>, isDigit: char -> bool): World {
    if steps == [] then World([], [], 0)
    else Next(RunSteps(steps[..|steps| - 1], isDigit), steps[|steps| - 1], isDigit)
  }

  /** Handling what is still unacknowledged would give the table that handling every
      update exactly once gives. */
  predicate OnTrack(w: World, isDigit: char -> bool) {
    Run(w.links, w.log[Acknowledged(w.log, w.offset)..], isDigit) == Run([], w.log, isDigit)
  }

  lemma {:induction false} AcknowledgedIs(log: seq<Update>, offset: nat)
    requires Ascending(log)
    ensures var k := Acknowledged(log, offset);
            && (forall i :: 0 <= i < k ==> log[i].id < offset)
            && (forall i :: k <= i < |log| ==> log[i].id >= offset)
  {
    if log != [] {
      var rest := log[1..];
      AcknowledgedIs(rest, offset);
      assert forall i :: 0 <= i < |rest| ==> rest[i] == log[i + 1];
      assert forall i :: 1 <= i < |log| ==> log[i] == rest[i - 1];
    }
  }

  lemma {:induction false} AcknowledgedIsUnique(log: seq<Update>, offset: nat, k: nat)
    requires k <= |log| && (k < |log| ==> log[k].id >= offset)
    requires forall i :: 0 <= i < k ==> log[i].id < offset
    ensures Acknowledged(log, offset) == k
  {
    if k > 0 {
      var rest := log[1..];
      assert forall i :: 0 <= i < |rest| ==> rest[i] == log[i + 1];
      AcknowledgedIsUnique(rest, offset, k - 1);
    }
  }

  lemma {:induction false} OffsetAfter(offset: nat, batch: seq<Update>)
    requires Ascending(batch) && forall i :: 0 <= i < |batch| ==> batch[i].id >= offset
    ensures NextOffset(offset, batch) == if batch == [] then offset else batch[|batch| - 1].id + 1
  {
    if |batch| > 1 {
      OffsetAfter(offset, batch[..|batch| - 1]);
    } else if |batch| == 1 {
      assert batch[..0] == [];
    }
  }

  lemma {:induction false} SliceOf(log: seq<Update>, offset: nat, k: nat, n: nat)
    requires Ascending(log) && k == Acknowledged(log, offset) && k + n <= |log|
    ensures Ascending(log[k..k + n])
    ensures var batch := log[k..k + n]; forall i :: 0 <= i < n ==> batch[i].id >= offset
  {
    AcknowledgedIs(log, offset);
    var batch := log[k..k + n];
    forall i | 0 <= i < n ensures batch[i].id >= offset {
      assert batch[i] == log[k + i];
    }
  }

  /** A poll that ends acknowledges exactly the updates it handled. */
  lemma {:induction false} PollAcknowledges(log: seq<Update>, offset: nat, k: nat, n: nat)
    requires Ascending(log) && k == Acknowledged(log, offset) && k + n <= |log|
    ensures Acknowledged(log, NextOffset(offset, log[k..k + n])) == k + n
    ensures n == 0 ==> NextOffset(offset, log[k..k + n]) == offset
    ensures n > 0 ==> NextOffset(offset, log[k..k + n]) == log[k + n - 1].id + 1
  {
    var batch := log[k..k + n];
    SliceOf(log, offset, k, n);
    OffsetAfter(offset, batch);
    if n > 0 {
      assert batch[n - 1] == log[k + n - 1];
      AcknowledgedIsUnique(log, log[k + n - 1].id + 1, k + n);
    } else {
      assert batch == [];
    }
  }

  /** Nothing is acknowledged before it has arrived. */
  predicate Behind(w: World) {
    w.offset == 0 || (w.log != [] && w.offset <= w.log[|w.log| - 1].id + 1)
  }

  lemma {:induction false} ArrivalIsPending(log: seq<Update>, u: Update, offset: nat)
    requires Ascending(log) && u.id >= offset
    ensures Acknowledged(log + [u], offset) == Acknowledged(log, offset)
  {
    AcknowledgedIs(log, offset);
    var more, k := log + [u], Acknowledged(log, offset);
    assert forall i :: 0 <= i < |log| ==> more[i] == log[i];
    AcknowledgedIsUnique(more, offset, k);
  }

  lemma {:induction false} ArrivalKeepsTrack(w: World, u: Update, isDigit: char -> bool)
    requires Ascending(w.log + [u]) && OnTrack(w, isDigit) && Behind(w)
    ensures OnTrack(Next(w, Arrive(u), isDigit), isDigit) && Behind(Next(w, Arrive(u), isDigit))
  {
    hide Run;
    var log := w.log + [u];
    var k := Acknowledged(w.log, w.offset);
    AscendingFront(w.log, u);
    ArrivalIsPending(w.log, u, w.offset);
    assert log[k..] == w.log[k..] + [u];
    RunConcat(w.links, w.log[k..], [u], isDigit);
    RunConcat([], w.log, [u], isDigit);
  }

  lemma {:induction false} AscendingFront(log: seq<Update>, u: Update)
    requires Ascending(log + [u])
    ensures Ascending(log)
    ensures log != [] ==> log[|log| - 1].id < u.id
  {
    var more := log + [u];
    assert forall i :: 0 <= i < |log| ==> log[i] == more[i];
    assert more[|log|] == u;
  }

  lemma LastIsLargest(log: seq<Update>, i: nat)
    requires Ascending(log) && i < |log|
    ensures log[i].id <= log[|log| - 1].id
  {
  }

  /** A poll that dies changes nothing that the next one does not do again. */
  lemma {:induction false} CutShortKeepsTrack(w: World, limit: nat, survives: nat, isDigit: char -> bool)
    requires OnTrack(w, isDigit)
    ensures OnTrack(Next(w, Polled(limit, Some(survives)), isDigit), isDigit)
  {
    hide Run, Acknowledged;
    var batch := Batch(w, limit);
    var pending := w.log[Acknowledged(w.log, w.offset)..];
    var part := batch[..Min(survives, |batch|)];
    assert part <= pending;
    ReplayIsHarmless(w.links, part, pending, isDigit);
  }

  lemma {:induction false} PollKeepsTrack(w: World, limit: nat, isDigit: char -> bool)
    requires Ascending(w.log) && OnTrack(w, isDigit)
    ensures OnTrack(Next(w, Polled(limit, None), isDigit), isDigit)
  {
    hide Run, NextOffset, Acknowledged, Ascending;
    var k, batch := Acknowledged(w.log, w.offset), Batch(w, limit);
    var n := |batch|;
    assert batch == w.log[k..k + n];
    PollAcknowledges(w.log, w.offset, k, n);
    assert w.log[k..] == batch + w.log[k + n..];
    RunConcat(w.links, batch, w.log[k + n..], isDigit);
  }

  lemma {:induction false} PollStaysBehind(w: World, limit: nat, isDigit: char -> bool)
    requires Ascending(w.log) && Behind(w)
    ensures Behind(Next(w, Polled(limit, None), isDigit))
  {
    hide Run, NextOffset, Acknowledged, Ascending;
    var k, batch := Acknowledged(w.log, w.offset), Batch(w, limit);
    var n := |batch|;
    assert batch == w.log[k..k + n];
    PollAcknowledges(w.log, w.offset, k, n);
    if n > 0 {
      LastIsLargest(w.log, k + n - 1);
    }
  }

  lemma {:induction false} EveryRunIsOnTrack(steps: seq<Step>, isDigit: char -> bool)
    requires Ascending(RunSteps(steps, isDigit).log)
    ensures OnTrack(RunSteps(steps, isDigit), isDigit) && Behind(RunSteps(steps, isDigit))
    ensures OneToOne(RunSteps(steps, isDigit).links)
  {
    if steps != [] {
      var front, s := steps[..|steps| - 1], steps[|steps| - 1];
      var w := RunSteps(front, isDigit);
      match s
      case Arrive(u) =>
        AscendingFront(w.log, u);
        EveryRunIsOnTrack(front, isDigit);
        ArrivalKeepsTrack(w, u, isDigit);
      case Polled(limit, survives) =>
        EveryRunIsOnTrack(front, isDigit);
        var batch := Batch(w, limit);
        if survives.None? {
          PollKeepsTrack(w, limit, isDigit);
          PollStaysBehind(w, limit, isDigit);
          LinksStayOneToOne(w.links, batch, isDigit);
        } else {
          CutShortKeepsTrack(w, limit, survives.value, isDigit);
          LinksStayOneToOne(w.links, batch[..Min(survives.value, |batch|)], isDigit);
        }
    }
  }

  /** Whatever arrived, however polls were cut short and repeated: once nothing is
      pending, the table is what handling every update exactly once would have left. */
  lemma {:induction false} CaughtUpMeansExactlyOnce(steps: seq<Step>, isDigit: char -> bool)
    requires var w := RunSteps(steps, isDigit); Ascending(w.log) && Acknowledged(w.log, w.offset) == |w.log|
    ensures RunSteps(steps, isDigit).links == Run([], RunSteps(steps, isDigit).log, isDigit)
  {
    EveryRunIsOnTrack(steps, isDigit);
    var w := RunSteps(steps, isDigit);
    assert w.log[|w.log|..] == [];
  }
}
