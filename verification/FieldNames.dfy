// Field names and values the HTTP code compares against, in ASCII.
module FieldNames {
  import opened Bytes

  // content-length
  const CONTENT_LENGTH: bytes := [99, 111, 110, 116, 101, 110, 116, 45, 108, 101, 110, 103, 116, 104]
  // transfer-encoding
  const TRANSFER_ENCODING: bytes := [116, 114, 97, 110, 115, 102, 101, 114, 45, 101, 110, 99, 111, 100, 105, 110, 103]
  // host
  const HOST: bytes := [104, 111, 115, 116]
  // trailer
  const TRAILER: bytes := [116, 114, 97, 105, 108, 101, 114]
  // connection
  const CONNECTION: bytes := [99, 111, 110, 110, 101, 99, 116, 105, 111, 110]
  // upgrade
  const UPGRADE: bytes := [117, 112, 103, 114, 97, 100, 101]
  // expect
  const EXPECT: bytes := [101, 120, 112, 101, 99, 116]
  // chunked
  const CHUNKED: bytes := [99, 104, 117, 110, 107, 101, 100]
  // close
  const CLOSE: bytes := [99, 108, 111, 115, 101]
  // keep-alive
  const KEEP_ALIVE: bytes := [107, 101, 101, 112, 45, 97, 108, 105, 118, 101]
  // 100-continue
  const CONTINUE_100: bytes := [49, 48, 48, 45, 99, 111, 110, 116, 105, 110, 117, 101]
  // proxy-connection
  const PROXY_CONNECTION: bytes := [112, 114, 111, 120, 121, 45, 99, 111, 110, 110, 101, 99, 116, 105, 111, 110]
  // te
  const TE: bytes := [116, 101]
  // trailers
  const TRAILERS: bytes := [116, 114, 97, 105, 108, 101, 114, 115]
}
