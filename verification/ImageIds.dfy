/** Names of images. */
module ImageIds {
  const INVALID_IMAGE_ID: nat := 0xFFFF_FFFF
}
