/** The mock payment service: three ordered checks on the card details, then a random
    decline. The decline draw is a parameter here. */
module PaymentService {
  import opened Wrappers
  import opened Text

  datatype CardDetails = CardDetails(cardNumber: string, expiry: string, cvv: string)

  const InvalidCardNumber := "Invalid card number"
  const InvalidExpiry := "Invalid expiry date. Use MM/YY format"
  const InvalidCvv := "Invalid CVV"
  const Declined := "Payment declined by bank. Please try a different card or contact your bank."

  /** At least 16 characters; nothing checks that they are digits. */
  predicate CardNumberAccepted(s: string) { |s| >= 16 }

  /** The pattern `^\d{2}\/\d{2}$`: two digits, a slash, two digits. */
  predicate ExpiryAccepted(s: string)
  {
    |s| == 5 && IsDigit(s[0]) && IsDigit(s[1]) && s[2] == '/' && IsDigit(s[3]) && IsDigit(s[4])
  }

  /** At least 3 characters, with no upper bound. */
  predicate CvvAccepted(s: string) { |s| >= 3 }

  /** handlePayment: the first failing check names the error; input that passes all three
      is charged unless the bank declines (`declined` stands for the random draw). The
      amount is not looked at. */
  function HandlePayment(amount: int, card: CardDetails, declined: bool): (r: Result<()>)
    ensures (r.Err? && r.message == InvalidCardNumber) <==> !CardNumberAccepted(card.cardNumber)
    ensures (r.Err? && r.message == InvalidExpiry) <==>
      CardNumberAccepted(card.cardNumber) && !ExpiryAccepted(card.expiry)
    ensures (r.Err? && r.message == InvalidCvv) <==>
      CardNumberAccepted(card.cardNumber) && ExpiryAccepted(card.expiry) && !CvvAccepted(card.cvv)
    ensures (r.Err? && r.message == Declined) <==>
      CardNumberAccepted(card.cardNumber) && ExpiryAccepted(card.expiry) && CvvAccepted(card.cvv) && declined
    ensures r.Ok? <==>
      CardNumberAccepted(card.cardNumber) && ExpiryAccepted(card.expiry) && CvvAccepted(card.cvv) && !declined
  {
    if card.cardNumber == "" || |card.cardNumber| < 16 then Err(InvalidCardNumber)
    else if card.expiry == "" || !ExpiryAccepted(card.expiry) then Err(InvalidExpiry)
    else if card.cvv == "" || |card.cvv| < 3 then Err(InvalidCvv)
    else if declined then Err(Declined)
    else Ok(())
  }

  /** The amount never changes the outcome. */
  lemma AmountIgnored(a: int, b: int, card: CardDetails, declined: bool)
    ensures HandlePayment(a, card, declined) == HandlePayment(b, card, declined)
  {
  }

  /** The expiry check is a pattern, not a date: month 13 passes, a one-digit month fails. */
  lemma ExpiryIsOnlyAPattern()
    ensures ExpiryAccepted("13/99")
    ensures ExpiryAccepted("00/00")
    ensures !ExpiryAccepted("1/25")
    ensures !ExpiryAccepted("12/2025")
  {
  }

  /** Any 16 characters pass the card number check, and a long CVV is accepted. */
  lemma ChecksAreOnlyLengths()
    ensures HandlePayment(100, CardDetails("abcdefghijklmnop", "13/99", "12345"), false) == Ok(())
    ensures HandlePayment(100, CardDetails("", "", ""), false) == Err(InvalidCardNumber)
    ensures HandlePayment(100, CardDetails("4111111111111111", "1299", ""), false) == Err(InvalidExpiry)
  {
  }
}
