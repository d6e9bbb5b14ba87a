/** The record a member's deposit holds for each product. */
module DepositTypes {
  import opened Options

  /**
   * A product entry of a member's deposit. `received` is three-valued:
   * `None` (undefined: the order is still pending), `Some(false)` (not yet
   * received) or `Some(true)` (received, points postponed). A stored `null`
   * is not one of these values. Ids are
   * compared with JavaScript's loose `==`, so numeric strings and numbers
   * meet; they are modelled as integers.
   */
  datatype DepositProduct = DepositProduct(
    id: int,
    title: string,
    count: int,
    paid: bool,
    received: Option<bool>,
    points: bool)
}
