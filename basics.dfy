/**
 * Vocabulary shared by every part of the shop: identifiers, the two kinds
 * of sellable item, payment states, and PHP's notion of an "empty" value.
 */
module Basics {

  datatype Option<+T> = None | Some(value: T)

  /** An operation's value, or the error the source throws or redirects with. */
  datatype Result<+T, +E> = Ok(value: T) | Err(error: E)

  type UserId = nat
  type CourseId = nat
  type ProductId = nat
  type OrderId = nat
  type CouponId = nat
  type KeyId = nat

  /** Instants are whole seconds on one clock; `now` is always a parameter. */
  type Time = int

  /** The `item_type` / `product_type` column: 'course' or 'digital_product'. */
  datatype ItemType = Course | DigitalProduct

  /** The `payment_status` column of orders and subscriptions. */
  datatype PaymentStatus = Pending | Completed | Failed | Refunded | Canceled

  /** PHP's `empty()` on a nullable string column: null, "" and "0" are empty. */
  predicate IsBlank(s: Option<string>)
  {
    s.None? || s.value == "" || s.value == "0"
  }
}
