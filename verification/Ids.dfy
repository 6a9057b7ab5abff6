/** The identity that stored entities have: the chain they are on and their address or hash. */
module Ids {

  datatype Id = Id(blockchain: string, address: string)
}
