/** The variants of the badge primitive (src/components/ui/Badge.tsx), shared by the medical cards. */
module Badge {
  datatype Variant = DefaultBadge | SuccessBadge | WarningBadge | ErrorBadge | InfoBadge | OutlineBadge
}
