/**
 * The notification service: one template per escrow event and the
 * `notify*` functions that send it to the parties. Sending is an append to
 * an outbox; the HTML markup and styling are reduced to the parts that carry
 * data (heading, detail fields, link target).
 */
module EmailService {
  import opened Wrappers
  import opened Records

  /** The five notifications the service sends. */
  datatype Notice = TransactionCreated | PaymentReceived | FundsReleased | DisputeRaised | RefundProcessed

  /** The data-carrying parts of a message body. */
  datatype Body = Body(heading: string, fields: seq<(string, string)>, link: string)

  datatype Template = Template(subject: string, body: Body)

  datatype Email = Email(to: string, subject: string, body: Body)

  datatype SendResult = SendResult(success: bool)

  const DefaultFrontendUrl := "http://localhost:5173"
  const DisputeSubject := "SafiPay: Dispute Raised - Action Required"

  /**
   * The dashboard link: the configured frontend URL when it is set and
   * non-empty, the local development URL otherwise, then "/dashboard".
   */
  function DashboardLink(frontendUrl: Option<string>): (link: string)
    ensures Truthy(frontendUrl) ==> link == frontendUrl.value + "/dashboard"
    ensures !Truthy(frontendUrl) ==> link == DefaultFrontendUrl + "/dashboard"
  {
    (if Truthy(frontendUrl) then frontendUrl.value else DefaultFrontendUrl) + "/dashboard"
  }

  /** The subject line before the amount, for the notices whose subject carries it. */
  function SubjectPrefix(n: Notice): string
    requires n != DisputeRaised
  {
    match n
    case TransactionCreated => "SafiPay: New Escrow Transaction - KES "
    case PaymentReceived => "SafiPay: Payment Received - KES "
    case FundsReleased => "SafiPay: Funds Released - KES "
    case RefundProcessed => "SafiPay: Refund Processed - KES "
  }

  /**
   * The subject. `amountText` stands for the locale rendering of the
   * amount.
   */
  function Subject(n: Notice, amountText: string): (s: string)
  {
    if n == DisputeRaised then DisputeSubject else SubjectPrefix(n) + amountText
  }

  function Heading(n: Notice): string
  {
    match n
    case TransactionCreated => "New Transaction Created"
    case PaymentReceived => "\U{1F4B3} Payment Received!"
    case FundsReleased => "\U{2705} Funds Released!"
    case DisputeRaised => "\U{26A0}\U{FE0F} Dispute Raised"
    case RefundProcessed => "\U{1F4B0} Refund Processed"
  }

  /** The status line each message shows. */
  function StatusText(n: Notice): string
  {
    match n
    case TransactionCreated => "In Escrow"
    case PaymentReceived => "Paid"
    case FundsReleased => "Complete"
    case DisputeRaised => "Under Review"
    case RefundProcessed => "Refunded"
  }

  /** The fields between the amount and the status line. */
  function ExtraFields(n: Notice, t: Transaction): seq<(string, string)>
  {
    match n
    case TransactionCreated => [("Buyer", t.buyer_email), ("Seller", t.seller_email)]
    case PaymentReceived => [("M-Pesa Receipt", Interpolated(t.mpesa_receipt))]
    case FundsReleased => []
    case DisputeRaised => [("Reason", Interpolated(t.dispute_reason))]
    case RefundProcessed => []
  }

  /** `emailTemplates[n](transaction)`. */
  function TemplateFor(n: Notice, t: Transaction, amountText: string, frontendUrl: Option<string>): (tp: Template)
    ensures |tp.body.fields| >= 3
    ensures tp.body.fields[0] == ("Description", t.description)
    ensures tp.body.fields[1] == ("Amount", "KES " + amountText)
    ensures tp.body.fields[|tp.body.fields| - 1] == ("Status", StatusText(n))
    ensures n == TransactionCreated ==>
      |tp.body.fields| == 5 && tp.body.fields[2] == ("Buyer", t.buyer_email) && tp.body.fields[3] == ("Seller", t.seller_email)
    ensures n == PaymentReceived ==>
      |tp.body.fields| == 4 && tp.body.fields[2] == ("M-Pesa Receipt", Interpolated(t.mpesa_receipt))
    ensures n == DisputeRaised ==>
      |tp.body.fields| == 4 && tp.body.fields[2] == ("Reason", Interpolated(t.dispute_reason))
    ensures n == FundsReleased || n == RefundProcessed ==> |tp.body.fields| == 3
    ensures tp.body.link == DashboardLink(frontendUrl)
    ensures n == DisputeRaised <==> tp.subject == DisputeSubject
    ensures n != DisputeRaised ==> tp.subject == SubjectPrefix(n) + amountText
  {
    var fields := [("Description", t.description), ("Amount", "KES " + amountText)]
      + ExtraFields(n, t) + [("Status", StatusText(n))];
    var s := Subject(n, amountText);
    assert n != DisputeRaised ==> s != DisputeSubject by {
      if n != DisputeRaised {
        SubjectDiffers(n, amountText);
      }
    }
    Template(s, Body(Heading(n), fields, DashboardLink(frontendUrl)))
  }

  /** No amount makes an amount-carrying subject equal the dispute subject. */
  lemma SubjectDiffers(n: Notice, amountText: string)
    requires n != DisputeRaised
    ensures SubjectPrefix(n) + amountText != DisputeSubject
  {
    var s := SubjectPrefix(n) + amountText;
    assert s[9] != DisputeSubject[9] || s[10] != DisputeSubject[10] || s[12] != DisputeSubject[12];
  }

  /** The dispute subject is the same whatever the transaction and the amount. */
  lemma DisputeSubjectConstant(t1: Transaction, t2: Transaction, a1: string, a2: string, u1: Option<string>, u2: Option<string>)
    ensures TemplateFor(DisputeRaised, t1, a1, u1).subject == TemplateFor(DisputeRaised, t2, a2, u2).subject
  {
  }

  /** Every other subject determines the amount it was made from. */
  lemma SubjectDeterminesAmount(n: Notice, t1: Transaction, t2: Transaction, a1: string, a2: string, u1: Option<string>, u2: Option<string>)
    requires n != DisputeRaised
    requires TemplateFor(n, t1, a1, u1).subject == TemplateFor(n, t2, a2, u2).subject
    ensures a1 == a2
  {
    var p := SubjectPrefix(n);
    assert (p + a1)[|p|..] == a1 && (p + a2)[|p|..] == a2;
  }

  /** The recipients of each notice, in sending order. */
  function Recipients(n: Notice, t: Transaction): (r: seq<string>)
  {
    if n == RefundProcessed then [t.buyer_email] else [t.buyer_email, t.seller_email]
  }

  /** The messages a `notify*` function sends: the same template to every recipient, in order. */
  function FanOut(n: Notice, t: Transaction, amountText: string, frontendUrl: Option<string>): (out: seq<Email>)
  {
    var tp := TemplateFor(n, t, amountText, frontendUrl);
    var rs := Recipients(n, t);
    seq(|rs|, i requires 0 <= i < |rs| => Email(rs[i], tp.subject, tp.body))
  }

  /** The four two-party notices go to the buyer, then the seller, with one subject and one body. */
  lemma FanOutTwoParties(n: Notice, t: Transaction, amountText: string, frontendUrl: Option<string>)
    requires n != RefundProcessed
    ensures var out := FanOut(n, t, amountText, frontendUrl);
      && |out| == 2
      && out[0].to == t.buyer_email && out[1].to == t.seller_email
      && out[0].subject == out[1].subject && out[0].body == out[1].body
      && out[0].body.fields[0] == ("Description", t.description)
  {
  }

  /** The refund notice goes to the buyer alone. */
  lemma FanOutRefund(t: Transaction, amountText: string, frontendUrl: Option<string>)
    ensures var out := FanOut(RefundProcessed, t, amountText, frontendUrl);
      && |out| == 1
      && out[0].to == t.buyer_email
      && out[0].subject == SubjectPrefix(RefundProcessed) + amountText
  {
  }

  /** Every message sent names the transaction's description first. */
  lemma FanOutCarriesDescription(n: Notice, t: Transaction, amountText: string, frontendUrl: Option<string>)
    ensures forall m :: m in FanOut(n, t, amountText, frontendUrl) ==>
      m.body.fields[0] == ("Description", t.description) && m.to in [t.buyer_email, t.seller_email]
  {
  }

  /** The fan-out written out: one message per recipient, in `Recipients` order. */
  lemma FanOutEmails(n: Notice, t: Transaction, amountText: string, frontendUrl: Option<string>)
    ensures var tp := TemplateFor(n, t, amountText, frontendUrl);
      FanOut(n, t, amountText, frontendUrl) ==
        if n == RefundProcessed then [Email(t.buyer_email, tp.subject, tp.body)]
        else [Email(t.buyer_email, tp.subject, tp.body), Email(t.seller_email, tp.subject, tp.body)]
  {
  }

  /** The outbox the service writes to. */
  class Mailer {
    var outbox: seq<Email>

    constructor()
      ensures outbox == []
    {
      outbox := [];
    }

    /** Records the message and reports success; delivery itself is not modelled. */
    method SendEmail(to: string, subject: string, body: Body) returns (r: SendResult)
      modifies this
      ensures outbox == old(outbox) + [Email(to, subject, body)]
      ensures r.success
    {
      outbox := outbox + [Email(to, subject, body)];
      r := SendResult(true);
    }

    method NotifyTransactionCreated(t: Transaction, amountText: string, frontendUrl: Option<string>)
      modifies this
      ensures outbox == old(outbox) + FanOut(TransactionCreated, t, amountText, frontendUrl)
    {
      FanOutEmails(TransactionCreated, t, amountText, frontendUrl);
      var tp := TemplateFor(TransactionCreated, t, amountText, frontendUrl);
      var _ := SendEmail(t.buyer_email, tp.subject, tp.body);
      var _ := SendEmail(t.seller_email, tp.subject, tp.body);
    }

    method NotifyPaymentReceived(t: Transaction, amountText: string, frontendUrl: Option<string>)
      modifies this
      ensures outbox == old(outbox) + FanOut(PaymentReceived, t, amountText, frontendUrl)
    {
      FanOutEmails(PaymentReceived, t, amountText, frontendUrl);
      var tp := TemplateFor(PaymentReceived, t, amountText, frontendUrl);
      var _ := SendEmail(t.buyer_email, tp.subject, tp.body);
      var _ := SendEmail(t.seller_email, tp.subject, tp.body);
    }

    method NotifyFundsReleased(t: Transaction, amountText: string, frontendUrl: Option<string>)
      modifies this
      ensures outbox == old(outbox) + FanOut(FundsReleased, t, amountText, frontendUrl)
    {
      FanOutEmails(FundsReleased, t, amountText, frontendUrl);
      var tp := TemplateFor(FundsReleased, t, amountText, frontendUrl);
      var _ := SendEmail(t.buyer_email, tp.subject, tp.body);
      var _ := SendEmail(t.seller_email, tp.subject, tp.body);
    }

    method NotifyDisputeRaised(t: Transaction, amountText: string, frontendUrl: Option<string>)
      modifies this
      ensures outbox == old(outbox) + FanOut(DisputeRaised, t, amountText, frontendUrl)
    {
      FanOutEmails(DisputeRaised, t, amountText, frontendUrl);
      var tp := TemplateFor(DisputeRaised, t, amountText, frontendUrl);
      var _ := SendEmail(t.buyer_email, tp.subject, tp.body);
      var _ := SendEmail(t.seller_email, tp.subject, tp.body);
    }

    method NotifyRefundProcessed(t: Transaction, amountText: string, frontendUrl: Option<string>)
      modifies this
      ensures outbox == old(outbox) + FanOut(RefundProcessed, t, amountText, frontendUrl)
    {
      FanOutEmails(RefundProcessed, t, amountText, frontendUrl);
      var tp := TemplateFor(RefundProcessed, t, amountText, frontendUrl);
      var _ := SendEmail(t.buyer_email, tp.subject, tp.body);
    }
  }
}
