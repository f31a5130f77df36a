/** What the stagers of image archives share. */
module ImageFormats {

  // The image formats an archive may hold.
  datatype Format = Png | Jpeg

  // Streams are copied in chunks of at most this size.
  const CHUNK := 1024 * 1024
}
