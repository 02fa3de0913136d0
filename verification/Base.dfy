/** Types shared by the models. */
module Base {

  type Byte = n: int | 0 <= n < 256

  datatype Option<T> = None | Some(value: T)

  function Min(a: int, b: int): int {
    if a < b then a else b
  }

  // TFTP, RFC 1350 and os/filesys/tftplib.c
  const SEGSIZE := 512
  const SERVER_PORT := 69
  const MAXREXMT := 0x7fff_ffff
}
