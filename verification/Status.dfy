/** The status values of zlib. */
module Status {
  const Z_OK := 0
  const Z_STREAM_END := 1
  const Z_DATA_ERROR := -3
  const Z_MEM_ERROR := -4
  const Z_BUF_ERROR := -5

  lemma Distinct()
    ensures Z_MEM_ERROR !in {Z_OK, Z_STREAM_END, Z_DATA_ERROR, Z_BUF_ERROR} && Z_DATA_ERROR !in {Z_OK, Z_BUF_ERROR}
    ensures Z_STREAM_END !in {Z_OK, Z_DATA_ERROR, Z_BUF_ERROR} && Z_OK != Z_BUF_ERROR
  {
  }
}
