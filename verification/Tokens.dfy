/** Token ids of the model's vocabulary. */
module Tokens {
  type Token = nat
}
