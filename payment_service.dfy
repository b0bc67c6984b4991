/**
 * Payments for premium posts (`src/main/java/com/phoenix/service/PaymentService.java`):
 * an order is opened with the payment gateway and recorded as PENDING;
 * verification moves the record to COMPLETED when the gateway's signature
 * matches, and to FAILED when it does not.
 *
 * The gateway's order call is a parameter giving the new order id or the
 * gateway's error message; HMAC-SHA256 under the shared secret is an
 * uninterpreted function `hmac`.
 */
module PaymentService {
  import opened Wrappers
  import opened Database

  const Currency: string := "INR"

  datatype PaymentOrderResponse = PaymentOrderResponse(orderId: string, amount: int, currency: string, keyId: string)

  /** The order's receipt: "rcpt_" and the first eight characters of the post id. */
  function Receipt(postId: Uuid): (r: string)
    requires |postId| >= 8
    ensures |r| == 13 && r[..5] == "rcpt_" && r[5..] == postId[..8]
  {
    "rcpt_" + postId[..8]
  }

  /** The guards of `createOrder`, in order; passes with the caller's row. */
  function CheckOrder(users: seq<User>, posts: map<Uuid, Post>, payments: map<string, Payment>, postId: Uuid, userEmail: string)
    : (r: Result<User, Error>)
    ensures postId !in posts ==> r == Err(PostNotFound("Post not found"))
    ensures postId in posts && !posts[postId].isPremium ==> r == Err(Unauthorized("Post is not a premium post"))
    ensures postId in posts && posts[postId].isPremium && FindByEmail(users, userEmail).None? ==>
      r == Err(Runtime("User not found"))
    ensures r.Ok? <==>
      && postId in posts && posts[postId].isPremium && FindByEmail(users, userEmail).Some?
      && posts[postId].author != userEmail && !HasCompletedPayment(payments, postId, userEmail)
    ensures r.Ok? ==> r.value.email == userEmail && r.value in users
  {
    if postId !in posts then Err(PostNotFound("Post not found"))
    else if !posts[postId].isPremium then Err(Unauthorized("Post is not a premium post"))
    else match FindByEmail(users, userEmail)
      case None => Err(Runtime("User not found"))
      case Some(user) =>
        if posts[postId].author == user.email then Err(Unauthorized("You are the author of this post"))
        else if HasCompletedPayment(payments, postId, user.email) then Err(Unauthorized("You have already paid for this post"))
        else Ok(user)
  }

  /** The author of a premium post and anyone who has already paid for it are turned away. */
  lemma NoOrderForAuthorOrPayer(users: seq<User>, posts: map<Uuid, Post>, payments: map<string, Payment>, postId: Uuid, userEmail: string)
    requires postId in posts && posts[postId].isPremium && FindByEmail(users, userEmail).Some?
    ensures posts[postId].author == userEmail ==>
      CheckOrder(users, posts, payments, postId, userEmail) == Err(Unauthorized("You are the author of this post"))
    ensures posts[postId].author != userEmail && HasCompletedPayment(payments, postId, userEmail) ==>
      CheckOrder(users, posts, payments, postId, userEmail) == Err(Unauthorized("You have already paid for this post"))
  {
  }

  /**
   * `createOrder`: a failed guard or a gateway error records nothing;
   * otherwise one PENDING payment for the post's price is recorded under the
   * gateway's order id, and that amount is returned as stored, in paise.
   */
  method CreateOrder(db: Db, postId: Uuid, userEmail: string, keyId: string,
                     gateway: (int, string, string) -> Result<string, string>)
    returns (r: Result<PaymentOrderResponse, Error>)
    requires |postId| >= 8
    requires postId in db.posts ==> gateway(db.posts[postId].price, Currency, Receipt(postId)).Ok? ==>
      gateway(db.posts[postId].price, Currency, Receipt(postId)).value !in db.payments
    modifies db`payments
    ensures CheckOrder(db.users, db.posts, old(db.payments), postId, userEmail).Err? ==>
      && r == Err(CheckOrder(db.users, db.posts, old(db.payments), postId, userEmail).error)
      && db.payments == old(db.payments)
    ensures CheckOrder(db.users, db.posts, old(db.payments), postId, userEmail).Ok? ==>
      var post := db.posts[postId];
      var order := gateway(post.price, Currency, Receipt(postId));
      && (order.Err? ==> r == Err(Runtime("Payment gateway error: " + order.error)) && db.payments == old(db.payments))
      && (order.Ok? ==>
            && db.payments == old(db.payments)[order.value := Payment(userEmail, postId, None, post.price, Pending)]
            && r == Ok(PaymentOrderResponse(order.value, post.price, Currency, keyId)))
  {
    var check := CheckOrder(db.users, db.posts, db.payments, postId, userEmail);
    if check.Err? {
      return Err(check.error);
    }
    var post := db.posts[postId];
    var order := gateway(post.price, Currency, Receipt(postId));
    if order.Err? {
      return Err(Runtime("Payment gateway error: " + order.error));
    }
    db.payments := db.payments[order.value := Payment(check.value.email, postId, None, post.price, Pending)];
    r := Ok(PaymentOrderResponse(order.value, post.price, Currency, keyId));
  }

  /** The payload the gateway signs: the order id, a bar, the payment id. */
  function SignedPayload(orderId: string, paymentId: string): string {
    orderId + "|" + paymentId
  }

  /** The record after a signature check: COMPLETED with the payment id when it matched, FAILED otherwise. */
  function AfterCheck(payment: Payment, matched: bool, paymentId: string): (r: Payment)
    ensures r.user == payment.user && r.post == payment.post && r.amount == payment.amount
    ensures r.status == Completed <==> matched
    ensures r.status == Failed <==> !matched
    ensures r.paymentId == if matched then Some(paymentId) else payment.paymentId
  {
    if matched then payment.(status := Completed, paymentId := Some(paymentId)) else payment.(status := Failed)
  }

  /**
   * `verifyPayment`: an unknown order or another user's order throws and
   * changes nothing; a wrong signature marks the record FAILED and throws;
   * a right one marks it COMPLETED with the payment id.
   */
  method VerifyPayment(db: Db, orderId: string, paymentId: string, signature: string, userEmail: string,
                       hmac: string -> string) returns (r: Result<(), Error>)
    modifies db`payments
    ensures orderId !in old(db.payments) ==>
      r == Err(Runtime("Payment record not found")) && db.payments == old(db.payments)
    ensures orderId in old(db.payments) && old(db.payments)[orderId].user != userEmail ==>
      r == Err(Unauthorized("Payment does not belong to current user")) && db.payments == old(db.payments)
    ensures orderId in old(db.payments) && old(db.payments)[orderId].user == userEmail ==>
      var matched := hmac(SignedPayload(orderId, paymentId)) == signature;
      && db.payments == old(db.payments)[orderId := AfterCheck(old(db.payments)[orderId], matched, paymentId)]
      && (matched <==> r.Ok?)
      && (!matched ==> r == Err(Unauthorized("Payment signature verification failed")))
  {
    if orderId !in db.payments {
      return Err(Runtime("Payment record not found"));
    }
    var payment := db.payments[orderId];
    if payment.user != userEmail {
      return Err(Unauthorized("Payment does not belong to current user"));
    }
    var generated := hmac(orderId + "|" + paymentId);
    if generated != signature {
      db.payments := db.payments[orderId := payment.(status := Failed)];
      return Err(Unauthorized("Payment signature verification failed"));
    }
    db.payments := db.payments[orderId := payment.(status := Completed, paymentId := Some(paymentId))];
    r := Ok(());
  }

  /** `hasPaid`: false for an unknown user, otherwise whether a COMPLETED payment exists. */
  function HasPaid(users: seq<User>, payments: map<string, Payment>, postId: Uuid, userEmail: string): (r: bool)
    ensures FindByEmail(users, userEmail).None? ==> !r
    ensures FindByEmail(users, userEmail).Some? ==> (r <==> HasCompletedPayment(payments, postId, userEmail))
  {
    match FindByEmail(users, userEmail)
    case None => false
    case Some(user) => HasCompletedPayment(payments, postId, user.email)
  }

  /** A matched signature on the caller's order gives the caller access: `hasPaid` holds afterwards. */
  lemma MatchedVerificationPays(users: seq<User>, payments: map<string, Payment>, orderId: string, paymentId: string)
    requires orderId in payments && FindByEmail(users, payments[orderId].user).Some?
    ensures var p := payments[orderId];
      HasPaid(users, payments[orderId := AfterCheck(p, true, paymentId)], p.post, p.user)
  {
    var p := payments[orderId];
    var after := payments[orderId := AfterCheck(p, true, paymentId)];
    assert after[orderId].post == p.post && after[orderId].user == p.user && after[orderId].status == Completed;
  }

  /**
   * A new order never grants access: a PENDING record added under a fresh
   * order id leaves `hasPaid` as it was for every user and post.
   */
  lemma PendingOrderGrantsNothing(users: seq<User>, payments: map<string, Payment>, orderId: string, p: Payment,
                                  postId: Uuid, userEmail: string)
    requires orderId !in payments && p.status == Pending
    ensures HasPaid(users, payments[orderId := p], postId, userEmail) == HasPaid(users, payments, postId, userEmail)
  {
    var after := payments[orderId := p];
    if HasCompletedPayment(after, postId, userEmail) {
      var k :| k in after && after[k].post == postId && after[k].user == userEmail && after[k].status == Completed;
      assert k != orderId && k in payments;
    }
    if HasCompletedPayment(payments, postId, userEmail) {
      var k :| k in payments && payments[k].post == postId && payments[k].user == userEmail && payments[k].status == Completed;
      assert k in after;
    }
  }
}
