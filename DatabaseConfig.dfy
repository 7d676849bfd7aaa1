/**
 * The port chosen for the development H2 TCP server, derived from the
 * application's `server.port` property.
 */
module DatabaseConfig {

  import opened Wrappers
  import opened Numbers

  const DEFAULT_SERVER_PORT: int := 8080

  /** `server.port` read with `toIntOrNull`, falling back to 8080 when absent or not an `Int`. */
  function ServerPort(property: Option<string>): (port: int)
    ensures INT_MIN <= port <= INT_MAX
    ensures property.None? ==> port == DEFAULT_SERVER_PORT
  {
    match property
    case None => DEFAULT_SERVER_PORT
    case Some(text) => ToIntOrNull(text).GetOr(DEFAULT_SERVER_PORT)
  }

  /**
   * The H2 port for a server port: below 10000 shifted up by 10000, below
   * 63536 shifted up by 2000, otherwise shifted down by 2000. For any TCP port
   * the result is a TCP port of at least 10000 and differs from the server's;
   * for any `Int` the arithmetic stays within `Int`.
   */
  function H2Port(port: int): (r: int)
    ensures 0 <= port <= 65535 ==> 10000 <= r <= 65535 && r != port
    ensures INT_MIN <= port <= INT_MAX ==> INT_MIN <= r <= INT_MAX
  {
    if port < 10000 then 10000 + port
    else if port < 63536 then port + 2000
    else port - 2000
  }

  /** `getValidPortForH2`: the H2 port written in decimal, which reads back as that port. */
  function GetValidPortForH2(property: Option<string>): (r: string)
    ensures ToIntOrNull(r) == Some(H2Port(ServerPort(property)))
  {
    var port := H2Port(ServerPort(property));
    ParseDecimalString(port, INT_MIN, INT_MAX);
    DecimalString(port)
  }

  /** Without a usable `server.port` the H2 server listens on 18080. */
  lemma DefaultH2Port(property: Option<string>)
    requires property.None? || ToIntOrNull(property.value).None?
    ensures GetValidPortForH2(property) == "18080"
  {
    assert H2Port(ServerPort(property)) == 18080;
    DefaultH2PortText();
  }

  /** The decimal text of the default H2 port, digit by digit. */
  lemma DefaultH2PortText()
    ensures NatString(18080) == "18080"
  {
    assert NatString(18) == NatString(1) + ['8'];
    assert NatString(180) == NatString(18) + ['0'];
    assert NatString(1808) == NatString(180) + ['8'];
    assert NatString(18080) == NatString(1808) + ['0'];
  }
}
