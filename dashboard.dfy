/**
 * The dashboard page: the create-transaction handler with its form
 * validation, the badge for each status and the three stat counters.
 */
module Dashboard {
  import opened Wrappers
  import opened Records
  import Utf8
  import MacRoman

  datatype User = User(id: string, email: string)

  /** The create form; every input holds text, the amount included. */
  datatype Form = Form(buyer_email: string, seller_email: string, amount: string, description: string)

  const EmptyForm := Form("", "", "", "")
  const FillAllFields := "Please fill in all fields."

  /** The row the page asks the database to insert. */
  datatype NewRow = NewRow(buyer_email: string, seller_email: string, amount: real, description: string, status: string, user_id: string)

  /** The validation message, if any: every input must be non-empty. */
  function CreateProblem(f: Form): (p: Option<string>)
    ensures p.None? <==> (f.buyer_email != "" && f.seller_email != "" && f.amount != "" && f.description != "")
    ensures p.Some? ==> p.value == FillAllFields
  {
    if f.buyer_email == "" || f.seller_email == "" || f.amount == "" || f.description == "" then Some(FillAllFields)
    else None
  }

  /**
   * The inserted row: the form spread in, the amount replaced by its parsed
   * value, status "held" and the current user's id.
   */
  function RowFor(f: Form, userId: string, parsedAmount: real): (r: NewRow)
  {
    NewRow(f.buyer_email, f.seller_email, parsedAmount, f.description, HELD, userId)
  }

  /** A new row keeps the form's text fields, starts held and belongs to the user. */
  lemma RowKeepsForm(f: Form, userId: string, parsedAmount: real)
    ensures var r := RowFor(f, userId, parsedAmount);
      && r.buyer_email == f.buyer_email && r.seller_email == f.seller_email
      && r.description == f.description && r.amount == parsedAmount
      && r.status == HELD && r.user_id == userId
  {
  }

  /** How a call of the handler ends. */
  datatype CreateOutcome =
    | Rejected        // a field was empty
    | Crashed         // no signed-in user: reading its id throws after `submitting` was set
    | Inserted
    | InsertFailed

  class DashboardPage {
    var user: Option<User>
    var form: Form
    var showForm: bool
    var submitting: bool
    var error: string
    /** The insert requests the page has sent, oldest first. */
    var insertRequests: seq<NewRow>
    /** The user ids the transaction list was reloaded for, oldest first. */
    var refreshes: seq<string>

    constructor(user: Option<User>)
      ensures this.user == user && form == EmptyForm && !showForm && !submitting && error == ""
      ensures insertRequests == [] && refreshes == []
    {
      this.user := user;
      form := EmptyForm;
      showForm := false;
      submitting := false;
      error := "";
      insertRequests := [];
      refreshes := [];
    }

    /**
     * `handleCreate`. `parsedAmount` is the parsed amount text and
     * `insertError` the database's answer to the insert.
     */
    method HandleCreate(parsedAmount: real, insertError: Option<string>) returns (outcome: CreateOutcome)
      modifies this
      ensures user == old(user)
      ensures CreateProblem(old(form)).Some? ==>
        && outcome == Rejected && error == FillAllFields
        && form == old(form) && showForm == old(showForm) && submitting == old(submitting)
        && insertRequests == old(insertRequests) && refreshes == old(refreshes)
      ensures CreateProblem(old(form)).None? && old(user).None? ==>
        && outcome == Crashed && error == "" && submitting
        && form == old(form) && showForm == old(showForm)
        && insertRequests == old(insertRequests) && refreshes == old(refreshes)
      ensures CreateProblem(old(form)).None? && old(user).Some? ==>
        && insertRequests == old(insertRequests) + [RowFor(old(form), old(user).value.id, parsedAmount)]
        && !submitting
      ensures CreateProblem(old(form)).None? && old(user).Some? && insertError.Some? ==>
        && outcome == InsertFailed && error == insertError.value
        && form == old(form) && showForm == old(showForm) && refreshes == old(refreshes)
      ensures CreateProblem(old(form)).None? && old(user).Some? && insertError.None? ==>
        && outcome == Inserted && error == ""
        && form == EmptyForm && !showForm && refreshes == old(refreshes) + [old(user).value.id]
    {
      error := "";
      var problem := CreateProblem(form);
      if problem.Some? {
        error := problem.value;
        return Rejected;
      }
      submitting := true;
      if user.None? {
        return Crashed;
      }
      insertRequests := insertRequests + [RowFor(form, user.value.id, parsedAmount)];
      if insertError.Some? {
        error := insertError.value;
        outcome := InsertFailed;
      } else {
        showForm := false;
        form := EmptyForm;
        refreshes := refreshes + [user.value.id];
        outcome := Inserted;
      }
      submitting := false;
    }
  }

  // ---------------------------------------------------------------------------
  // Status badges

  datatype Badge = Badge(bg: string, color: string, labelText: string)

  predicate KnownStatus(status: string)
  {
    status == HELD || status == COMPLETE || status == DISPUTED
  }

  /**
   * The labels as the page's source text spells them: the UTF-8 bytes of a
   * bullet, a check mark and a warning sign, each read as three Mac OS Roman
   * characters.
   */
  const HeldLabelAsWritten := "\U{201A}\U{00F3}\U{00E8} In Escrow"
  const CompleteLabelAsWritten := "\U{201A}\U{00FA}\U{00EC} Complete"
  const DisputedLabelAsWritten := "\U{201A}\U{00F6}\U{2020} Disputed"

  /** `statusColor` exactly as written, with the mis-decoded labels. */
  function StatusColorAsWritten(status: string): (b: Badge)
    ensures b.bg == StatusColor(status).bg && b.color == StatusColor(status).color
    ensures !KnownStatus(status) ==> b == StatusColor(status)
    ensures KnownStatus(status) ==>
      && |b.labelText| >= 3 && b.labelText[0] == '\U{201A}'
      && b.labelText[3..] == StatusColor(status).labelText[1..]
  {
    if status == HELD then Badge("rgba(255,193,7,0.12)", "#ffc107", HeldLabelAsWritten)
    else if status == COMPLETE then Badge("rgba(0,197,102,0.12)", "#00c566", CompleteLabelAsWritten)
    else if status == DISPUTED then Badge("rgba(224,19,46,0.12)", "#e0132e", DisputedLabelAsWritten)
    else Badge("rgba(255,255,255,0.05)", "#6b9178", status)
  }

  const HeldLabel := "\U{25CF} In Escrow"
  const CompleteLabel := "\U{2713} Complete"
  const DisputedLabel := "\U{26A0} Disputed"

  /**
   * `statusColor` with the labels it evidently means: a fixed badge for the
   * three known statuses, a neutral one showing the raw status otherwise.
   */
  function StatusColor(status: string): (b: Badge)
    ensures status == HELD ==> b == Badge("rgba(255,193,7,0.12)", "#ffc107", HeldLabel)
    ensures status == COMPLETE ==> b == Badge("rgba(0,197,102,0.12)", "#00c566", CompleteLabel)
    ensures status == DISPUTED ==> b == Badge("rgba(224,19,46,0.12)", "#e0132e", DisputedLabel)
    ensures !KnownStatus(status) ==> b == Badge("rgba(255,255,255,0.05)", "#6b9178", status)
  {
    if status == HELD then Badge("rgba(255,193,7,0.12)", "#ffc107", HeldLabel)
    else if status == COMPLETE then Badge("rgba(0,197,102,0.12)", "#00c566", CompleteLabel)
    else if status == DISPUTED then Badge("rgba(224,19,46,0.12)", "#e0132e", DisputedLabel)
    else Badge("rgba(255,255,255,0.05)", "#6b9178", status)
  }

  /** A glyph and an ASCII word, encoded as UTF-8 and read back as Mac OS Roman. */
  lemma GlyphLabelMisread(g: char, word: string)
    requires Utf8.IsAscii(word)
    ensures MacRoman.Decode(Utf8.Encode([g] + word)) == MacRoman.Decode(Utf8.EncodeChar(g)) + word
  {
    Utf8.EncodeAppend([g], word);
    assert Utf8.Encode([g]) == Utf8.EncodeChar(g) by {
      assert [g][1..] == [];
    }
    MacRoman.DecodeAppend(Utf8.EncodeChar(g), Utf8.Encode(word));
    MacRoman.AsciiUnchanged(word);
  }

  /** The three bytes of a glyph at or above U+0800 and below U+10000, by section 3 of RFC 3629. */
  lemma ThreeByteGlyph(g: char)
    requires 0x800 <= g as int < 0x10000 && !(0xD800 <= g as int < 0xE000)
    ensures Utf8.EncodeChar(g) == [0xE0 + g as int / 0x1000, 0x80 + (g as int / 0x40) % 0x40, 0x80 + g as int % 0x40]
  {
    Utf8.EncodeThree(g);
  }

  lemma HeldGlyphMisread()
    ensures MacRoman.Decode(Utf8.EncodeChar('\U{25CF}')) == "\U{201A}\U{00F3}\U{00E8}"
  {
    ThreeByteGlyph('\U{25CF}');
    var bytes := Utf8.EncodeChar('\U{25CF}');
    assert bytes == [0xE2, 0x97, 0x8F];
    assert MacRoman.DecodeByte(bytes[0]) == MacRoman.UpperRow(6)[2] == '\U{201A}';
    assert MacRoman.DecodeByte(bytes[1]) == MacRoman.UpperRow(1)[7] == '\U{00F3}';
    assert MacRoman.DecodeByte(bytes[2]) == MacRoman.UpperRow(0)[15] == '\U{00E8}';
  }

  lemma HeldLabelMisdecoded()
    ensures HeldLabelAsWritten == MacRoman.Decode(Utf8.Encode(HeldLabel))
  {
    var word := " In Escrow";
    assert HeldLabel == ['\U{25CF}'] + word;
    assert HeldLabelAsWritten == "\U{201A}\U{00F3}\U{00E8}" + word;
    HeldGlyphMisread();
    GlyphLabelMisread('\U{25CF}', word);
  }

  lemma CompleteGlyphMisread()
    ensures MacRoman.Decode(Utf8.EncodeChar('\U{2713}')) == "\U{201A}\U{00FA}\U{00EC}"
  {
    ThreeByteGlyph('\U{2713}');
    var bytes := Utf8.EncodeChar('\U{2713}');
    assert bytes == [0xE2, 0x9C, 0x93];
    assert MacRoman.DecodeByte(bytes[0]) == MacRoman.UpperRow(6)[2] == '\U{201A}';
    assert MacRoman.DecodeByte(bytes[1]) == MacRoman.UpperRow(1)[12] == '\U{00FA}';
    assert MacRoman.DecodeByte(bytes[2]) == MacRoman.UpperRow(1)[3] == '\U{00EC}';
  }

  lemma CompleteLabelMisdecoded()
    ensures CompleteLabelAsWritten == MacRoman.Decode(Utf8.Encode(CompleteLabel))
  {
    var word := " Complete";
    assert CompleteLabel == ['\U{2713}'] + word;
    assert CompleteLabelAsWritten == "\U{201A}\U{00FA}\U{00EC}" + word;
    CompleteGlyphMisread();
    GlyphLabelMisread('\U{2713}', word);
  }

  lemma DisputedGlyphMisread()
    ensures MacRoman.Decode(Utf8.EncodeChar('\U{26A0}')) == "\U{201A}\U{00F6}\U{2020}"
  {
    ThreeByteGlyph('\U{26A0}');
    var bytes := Utf8.EncodeChar('\U{26A0}');
    assert bytes == [0xE2, 0x9A, 0xA0];
    assert MacRoman.DecodeByte(bytes[0]) == MacRoman.UpperRow(6)[2] == '\U{201A}';
    assert MacRoman.DecodeByte(bytes[1]) == MacRoman.UpperRow(1)[10] == '\U{00F6}';
    assert MacRoman.DecodeByte(bytes[2]) == MacRoman.UpperRow(2)[0] == '\U{2020}';
  }

  lemma DisputedLabelMisdecoded()
    ensures DisputedLabelAsWritten == MacRoman.Decode(Utf8.Encode(DisputedLabel))
  {
    var word := " Disputed";
    assert DisputedLabel == ['\U{26A0}'] + word;
    assert DisputedLabelAsWritten == "\U{201A}\U{00F6}\U{2020}" + word;
    DisputedGlyphMisread();
    GlyphLabelMisread('\U{26A0}', word);
  }

  /**
   * The labels as written are the intended labels mis-decoded, and differ
   * from them; colours and the fallback are unaffected.
   */
  lemma AsWrittenLabelsMisdecoded(status: string)
    ensures KnownStatus(status) ==>
      && StatusColorAsWritten(status).labelText == MacRoman.Decode(Utf8.Encode(StatusColor(status).labelText))
      && StatusColorAsWritten(status).labelText != StatusColor(status).labelText
    ensures StatusColorAsWritten(status).bg == StatusColor(status).bg
    ensures StatusColorAsWritten(status).color == StatusColor(status).color
    ensures !KnownStatus(status) ==> StatusColorAsWritten(status) == StatusColor(status)
  {
    if status == HELD {
      HeldLabelMisdecoded();
      assert HeldLabelAsWritten[0] != HeldLabel[0];
    } else if status == COMPLETE {
      CompleteLabelMisdecoded();
      assert CompleteLabelAsWritten[0] != CompleteLabel[0];
    } else if status == DISPUTED {
      DisputedLabelMisdecoded();
      assert DisputedLabelAsWritten[0] != DisputedLabel[0];
    }
  }

  /** The badge shows the raw status exactly when the status is not one of the three known ones. */
  lemma LabelIsStatusIffUnknown(status: string)
    ensures StatusColor(status).labelText == status <==> !KnownStatus(status)
  {
    if KnownStatus(status) {
      var l := StatusColor(status).labelText;
      assert l[0] != status[0];
    }
  }

  /** Distinct known statuses get distinct labels, and so do two unknown ones. */
  lemma LabelsDistinguishStatuses(s1: string, s2: string)
    requires KnownStatus(s1) == KnownStatus(s2)
    requires StatusColor(s1).labelText == StatusColor(s2).labelText
    ensures s1 == s2
  {
    if KnownStatus(s1) {
      var l1, l2 := StatusColor(s1).labelText, StatusColor(s2).labelText;
      assert l1[0] == l2[0];
    }
  }

  /** A pending payment, which the backend produces, falls back to the neutral badge. */
  lemma PendingPaymentBadge()
    ensures StatusColor(PENDING_PAYMENT) == Badge("rgba(255,255,255,0.05)", "#6b9178", "pending_payment")
  {
  }

  // ---------------------------------------------------------------------------
  // Stats

  /** `transactions.filter(t => t.status === status)`. */
  function WithStatus(ts: seq<Transaction>, status: string): (r: seq<Transaction>)
    ensures |r| <= |ts|
    ensures forall x :: x in r ==> x in ts && x.status == status
  {
    if ts == [] then []
    else (if ts[0].status == status then [ts[0]] else []) + WithStatus(ts[1..], status)
  }

  /** Each row with the status is kept as often as it occurs, and no other row is. */
  lemma {:induction false} WithStatusMultiplicity(ts: seq<Transaction>, status: string)
    ensures forall x :: multiset(WithStatus(ts, status))[x] == (if x.status == status then multiset(ts)[x] else 0)
  {
    if ts != [] {
      WithStatusMultiplicity(ts[1..], status);
      assert ts == [ts[0]] + ts[1..];
    }
  }

  /** The filter keeps every row with the status. */
  lemma {:induction false} WithStatusKeepsAll(ts: seq<Transaction>, status: string, x: Transaction)
    requires x in ts && x.status == status
    ensures x in WithStatus(ts, status)
  {
    if ts[0] != x {
      WithStatusKeepsAll(ts[1..], status, x);
    }
  }

  /** The filter keeps the rows in their order: it distributes over concatenation. */
  lemma {:induction false} WithStatusAppend(ts: seq<Transaction>, us: seq<Transaction>, status: string)
    ensures WithStatus(ts + us, status) == WithStatus(ts, status) + WithStatus(us, status)
  {
    if ts == [] {
      assert ts + us == us;
    } else {
      assert (ts + us)[0] == ts[0] && (ts + us)[1..] == ts[1..] + us;
      WithStatusAppend(ts[1..], us, status);
    }
  }

  /** The positions of the rows with a status. */
  ghost function IndicesWith(ts: seq<Transaction>, status: string): set<nat>
  {
    set i: nat | i < |ts| && ts[i].status == status
  }

  /** The filter is exactly as long as the number of rows with the status. */
  lemma {:induction false} WithStatusCounts(ts: seq<Transaction>, status: string)
    ensures |WithStatus(ts, status)| == |IndicesWith(ts, status)|
    decreases |ts|
  {
    if ts != [] {
      var front, t := ts[..|ts| - 1], ts[|ts| - 1];
      assert ts == front + [t];
      WithStatusAppend(front, [t], status);
      WithStatusCounts(front, status);
      var last := if t.status == status then {|ts| - 1} else {};
      assert IndicesWith(ts, status) == IndicesWith(front, status) + last;
      assert |ts| - 1 !in IndicesWith(front, status);
    }
  }

  /** Rows of two different statuses together are no more than all rows. */
  lemma {:induction false} DisjointCounts(ts: seq<Transaction>, s1: string, s2: string)
    requires s1 != s2
    ensures |WithStatus(ts, s1)| + |WithStatus(ts, s2)| <= |ts|
  {
    if ts != [] {
      DisjointCounts(ts[1..], s1, s2);
    }
  }

  datatype Stats = Stats(total: nat, inEscrow: nat, completed: nat)

  /** The three counters above the transaction list. */
  function StatsOf(ts: seq<Transaction>): (st: Stats)
    ensures st.total == |ts|
    ensures st.inEscrow == |IndicesWith(ts, HELD)|
    ensures st.completed == |IndicesWith(ts, COMPLETE)|
    ensures st.inEscrow + st.completed <= st.total
  {
    DisjointCounts(ts, HELD, COMPLETE);
    WithStatusCounts(ts, HELD);
    WithStatusCounts(ts, COMPLETE);
    Stats(|ts|, |WithStatus(ts, HELD)|, |WithStatus(ts, COMPLETE)|)
  }
}
