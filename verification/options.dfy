/** The nullable values of the storefront (`User | null`, `string | null`,
    `Product | null`) are modelled as an Option. */
module Options {

  datatype Option<+T> = None | Some(value: T)
}
