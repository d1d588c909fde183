/** The protocol tags a user can ask for on the command line (Filter.cs).
    The argument parser collects them, the capture-expression builder turns
    each into a clause, and the classifier consults them for the ICMPv6
    sub-types a capture expression cannot tell apart. */
module Filters {

  datatype Filter = Tcp | Udp | Icmp4 | Icmp6 | Arp | Ndp | Igmp | Mld

  /** The tags that may carry a port restriction. */
  predicate IsTransport(f: Filter) {
    f == Tcp || f == Udp
  }
}
