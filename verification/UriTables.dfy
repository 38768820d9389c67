/** The escape tables: 256 bits each, one word per 32 characters. */
module UriTables {
  type Byte = bv8

  type Table = words: seq<bv32> | |words| == 8 witness [0, 0, 0, 0, 0, 0, 0, 0]

  const PERCENT: Byte := 0x25
  const QUESTION: Byte := 0x3f

  const HIGH: bv32 := 0xffff_ffff
  const URI: Table := [HIGH, 0xd000_002d, 0x5000_0000, 0xb800_0001, HIGH, HIGH, HIGH, HIGH]
  const ARGS: Table := [HIGH, 0xd800_086d, 0x5000_0000, 0xb800_0001, HIGH, HIGH, HIGH, HIGH]
  const URI_COMPONENT: Table := [HIGH, 0xfc00_9fff, 0x7800_0001, 0xb800_0001, HIGH, HIGH, HIGH, HIGH]
  const HTML: Table := [HIGH, 0x5000_00ad, 0x5000_0000, 0xb800_0001, HIGH, HIGH, HIGH, HIGH]
  const REFRESH: Table := [HIGH, 0x5000_0085, 0x5000_0000, 0xd800_0001, HIGH, HIGH, HIGH, HIGH]
  const MEMCACHED: Table := [HIGH, 0x0000_0021, 0, 0, 0, 0, 0, 0]

  /** By escape type: memcached serves mail_auth as well. */
  const TABLES: seq<Table> := [URI, ARGS, URI_COMPONENT, HTML, REFRESH, MEMCACHED, MEMCACHED]

  predicate Escapes(table: Table, b: Byte) {
    table[(b >> 5) as int] & ((1 as bv32) << (b & 0x1f)) != 0
  }

  predicate Alphanumeric(b: Byte) {
    0x30 <= b <= 0x39 || 0x41 <= b <= 0x5a || 0x61 <= b <= 0x7a
  }

  /** Section 2.3 of RFC 3986: letters, digits, "-", ".", "_" and "~". */
  predicate Unreserved(b: Byte) {
    Alphanumeric(b) || b == 0x2d || b == 0x2e || b == 0x5f || b == 0x7e
  }

  lemma ComponentEscapes(b: Byte)
    ensures Escapes(URI_COMPONENT, b) <==> !Unreserved(b)
  {
  }

  /** The percent sign itself is escaped by every table but one. */
  lemma PercentEscaped(kind: nat)
    requires kind < 7
    ensures Escapes(TABLES[kind], PERCENT) <==> kind != 4
  {
  }
}
